/** The bound transform `_get_output_tensor` applies to each action output
    (tfmdp/train/policy.py), over `real`. `sigmoid` and `exp` are parameters:
    their floating-point values are not modelled, and `Valid` states the only
    facts about them the transform relies on. */
module ActionBounds {
  import opened Wrappers

  /** The two squashing functions the transform uses. */
  datatype Squashers = Squashers(sigmoid: real -> real, exp: real -> real)

  /** `0 < sigmoid(x) < 1` and `exp(x) > 0` for every `x`. */
  ghost predicate Valid(f: Squashers) {
    && (forall x :: 0.0 < f.sigmoid(x) < 1.0)
    && (forall x :: 0.0 < f.exp(x))
  }

  /** Where a transformed value may lie, given the bounds that are present. */
  predicate WithinBounds(lower: Option<real>, upper: Option<real>, v: real) {
    && (lower.Some? && upper.Some? && lower.value < upper.value ==> lower.value < v < upper.value)
    && (lower.Some? && upper.Some? && lower.value == upper.value ==> v == lower.value)
    && (lower.Some? && upper.Some? && upper.value < lower.value ==> upper.value < v < lower.value)
    && (lower.Some? && upper.None? ==> lower.value < v)
    && (lower.None? && upper.Some? ==> v < upper.value)
  }

  /** Real multiplication, kept as a single term: the solver reasons about
      `lo + Mul(hi - lo, s)` linearly once `Mul`'s bounds are known. */
  function Mul(a: real, b: real): real {
    a * b
  }

  /** Scaling a positive length by a fraction strictly between 0 and 1 gives a
      strictly shorter positive length. */
  lemma ScaleDown(d: real, s: real)
    requires 0.0 < d && 0.0 < s < 1.0
    ensures 0.0 < Mul(d, s) < d
  {
    calc {
      Mul(d, s);
    ==
      d - d * (1.0 - s);
    <
      { assert 0.0 < d * (1.0 - s); }
      d;
    }
  }

  /** `lo + (hi - lo) * s` lies strictly between `lo` and `hi` for `0 < s < 1`,
      whichever of the two is larger. */
  lemma ScaledFraction(lo: real, hi: real, s: real)
    ensures 0.0 < s < 1.0 && lo < hi ==> lo < lo + Mul(hi - lo, s) < hi
    ensures 0.0 < s < 1.0 && hi < lo ==> hi < lo + Mul(hi - lo, s) < lo
  {
    if 0.0 < s < 1.0 && lo < hi {
      ScaleDown(hi - lo, s);
    } else if 0.0 < s < 1.0 && hi < lo {
      ScaleDown(lo - hi, s);
      assert Mul(lo - hi, s) == -Mul(hi - lo, s);
    }
  }

  /** `_get_output_tensor` on one element `t` of an action output. */
  function BoundedValue(t: real, lower: Option<real>, upper: Option<real>, f: Squashers): (r: real)
    ensures Valid(f) ==> WithinBounds(lower, upper, r)
    ensures lower.None? && upper.None? ==> r == t
  {
    match (lower, upper)
    case (Some(lo), Some(hi)) =>
      assert Valid(f) ==> 0.0 < f.sigmoid(t) < 1.0;
      ScaledFraction(lo, hi, f.sigmoid(t));
      lo + Mul(hi - lo, f.sigmoid(t))
    case (Some(lo), None) =>
      assert Valid(f) ==> 0.0 < f.exp(t);
      lo + f.exp(t)
    case (None, Some(hi)) =>
      assert Valid(f) ==> 0.0 < f.exp(t);
      hi - f.exp(t)
    case (None, None) => t
  }

  /** The bounds the compiler gives one action fluent, already broadcast to the
      flattened output; either may be absent. */
  datatype Bounds = Bounds(lower: Option<seq<real>>, upper: Option<seq<real>>)

  predicate Fits(b: Bounds, n: nat) {
    && (b.lower.Some? ==> |b.lower.value| == n)
    && (b.upper.Some? ==> |b.upper.value| == n)
  }

  function At(bound: Option<seq<real>>, i: nat): Option<real>
    requires bound.Some? ==> i < |bound.value|
  {
    match bound
    case None => None
    case Some(values) => Some(values[i])
  }

  /** The transform applied elementwise to one action output. */
  function BoundedTensor(raw: seq<real>, b: Bounds, f: Squashers): (r: seq<real>)
    requires Fits(b, |raw|)
    ensures |r| == |raw|
    ensures Valid(f) ==> forall i :: 0 <= i < |r| ==> WithinBounds(At(b.lower, i), At(b.upper, i), r[i])
    ensures b.lower.None? && b.upper.None? ==> r == raw
  {
    seq(|raw|, i requires 0 <= i < |raw| => BoundedValue(raw[i], At(b.lower, i), At(b.upper, i), f))
  }

  /** `_action_outputs` after reshaping: each action fluent's output transformed by
      `bounds[fluent_name]`, in fluent order; the first fluent without an entry
      raises `KeyError`. */
  function ActionOutputs(names: seq<string>, raws: seq<seq<real>>, bounds: map<string, Bounds>, f: Squashers)
    : (r: Result<seq<seq<real>>, string>)
    requires |raws| == |names|
    requires forall j :: 0 <= j < |names| && names[j] in bounds ==> Fits(bounds[names[j]], |raws[j]|)
    decreases |names|
    ensures r.Ok? <==> forall j :: 0 <= j < |names| ==> names[j] in bounds
    ensures r.Err? ==> r.error in names && r.error !in bounds
    // the error names the first fluent, in order, without an entry
    ensures forall j :: (0 <= j < |names| && names[j] !in bounds && forall k :: 0 <= k < j ==> names[k] in bounds) ==>
      r == Err(names[j])
    ensures r.Ok? ==> |r.value| == |names|
    ensures r.Ok? ==> forall j :: 0 <= j < |names| ==>
      |r.value[j]| == |raws[j]| && names[j] in bounds && Fits(bounds[names[j]], |raws[j]|)
      && (Valid(f) ==> forall i :: 0 <= i < |raws[j]| ==>
            WithinBounds(At(bounds[names[j]].lower, i), At(bounds[names[j]].upper, i), r.value[j][i]))
    // each output is its own raw tensor under its own fluent's bounds; an unbounded one passes through
    ensures r.Ok? ==> forall j :: 0 <= j < |names| ==>
      names[j] in bounds && r.value[j] == BoundedTensor(raws[j], bounds[names[j]], f)
    ensures r.Ok? ==> forall j :: 0 <= j < |names| ==>
      bounds[names[j]].lower.None? && bounds[names[j]].upper.None? ==> r.value[j] == raws[j]
  {
    if |names| == 0 then Ok([])
    else if names[0] !in bounds then Err(names[0])
    else
      var head := BoundedTensor(raws[0], bounds[names[0]], f);
      var rest :- ActionOutputs(names[1..], raws[1..], bounds, f);
      Ok([head] + rest)
  }
}
