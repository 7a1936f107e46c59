/** `DeepReactivePolicy` (tfmdp/train/policy.py): its configuration, the
    compiler facts it reads, and its canonical name and default checkpoint path. */
module Policy {
  import opened Wrappers
  import opened Text
  import Choices

  /** What the policy reads from the RDDL compiler, an external collaborator:
      the state-fluent ordering, the action-fluent ordering, and the shape of
      each action fluent (`action_size`), in that same order. */
  datatype Compiler = Compiler(
    stateFluents: seq<string>,
    actionFluents: seq<string>,
    actionSizes: seq<seq<nat>>)

  /** The constructor's arguments; the constructor validates none of them.
      `activation == None` is the planner's `'none'`: dense layers without activation. */
  datatype DeepReactivePolicy = DeepReactivePolicy(
    compiler: Compiler,
    layers: seq<nat>,
    activation: Option<Choices.Activation>,
    inputLayerNorm: bool,
    hiddenLayerNorm: bool)

  const NamePrefix := "drp-fc-layers="

  /** `map(str, layers)`. */
  function LayerStrings(layers: seq<nat>): (r: seq<string>)
    ensures |r| == |layers|
    ensures forall i :: 0 <= i < |r| ==> r[i] == NatToString(layers[i])
    decreases |layers|
  {
    if |layers| == 0 then [] else [NatToString(layers[0])] + LayerStrings(layers[1..])
  }

  /** The `name` property: the layer sizes in decimal, joined with `+`. */
  function Name(p: DeepReactivePolicy): string {
    NamePrefix + Join(LayerStrings(p.layers), '+')
  }

  /** The path `save` uses when it is given none. */
  function DefaultSavePath(p: DeepReactivePolicy): string {
    "/tmp/" + Name(p) + "/model.ckpt"
  }

  /** Reads the layer sizes back from a policy name; `None` for a string no
      policy is named. This is the inverse that shows `Name` loses nothing. */
  function ParseName(s: string): Option<seq<nat>> {
    if !IsPrefix(NamePrefix, s) then None
    else
      var body := s[|NamePrefix|..];
      if body == "" then Some([]) else ParseSizes(Split(body, '+'))
  }

  function ParseSizes(pieces: seq<string>): Option<seq<nat>>
    decreases |pieces|
  {
    if |pieces| == 0 then Some([])
    else if pieces[0] == "" || !AllDigits(pieces[0]) then None
    else
      match ParseSizes(pieces[1..])
      case None => None
      case Some(rest) => Some([DigitsValue(pieces[0])] + rest)
  }

  lemma {:induction false} ParseSizesOfLayerStrings(layers: seq<nat>)
    ensures ParseSizes(LayerStrings(layers)) == Some(layers)
    decreases |layers|
  {
    if |layers| > 0 {
      var pieces := LayerStrings(layers);
      assert pieces[1..] == LayerStrings(layers[1..]);
      ParseSizesOfLayerStrings(layers[1..]);
      NatToStringRoundTrip(layers[0]);
      assert [layers[0]] + layers[1..] == layers;
    }
  }

  lemma {:induction false} JoinNotShorter(parts: seq<string>, sep: char)
    requires 1 <= |parts|
    ensures |parts[0]| <= |Join(parts, sep)|
  {
  }

  /** The name determines the layer sizes: parsing it gives them back. */
  lemma NameRoundTrip(p: DeepReactivePolicy)
    ensures ParseName(Name(p)) == Some(p.layers)
  {
    var pieces := LayerStrings(p.layers);
    var body := Join(pieces, '+');
    PrefixOfAppend(NamePrefix, body);
    assert (NamePrefix + body)[|NamePrefix|..] == body;
    ParseSizesOfLayerStrings(p.layers);
    if |p.layers| > 0 {
      forall i | 0 <= i < |pieces|
        ensures '+' !in pieces[i]
      {
        assert AllDigits(pieces[i]);
      }
      SplitJoin(pieces, '+');
      JoinNotShorter(pieces, '+');
    }
  }

  /** Two policies share a name, and so a default checkpoint path, only if they
      have the same layer sizes. */
  lemma NameInjective(p: DeepReactivePolicy, q: DeepReactivePolicy)
    ensures Name(p) == Name(q) <==> p.layers == q.layers
    ensures DefaultSavePath(p) == DefaultSavePath(q) <==> p.layers == q.layers
  {
    NameRoundTrip(p);
    NameRoundTrip(q);
    if DefaultSavePath(p) == DefaultSavePath(q) {
      var a, b := DefaultSavePath(p), DefaultSavePath(q);
      assert |Name(p)| == |Name(q)|;
      assert Name(p) == a[5..|a| - 11];
      assert Name(q) == b[5..|b| - 11];
    }
  }

  /** The default path lies in a directory of its own under `/tmp`, named after the policy. */
  lemma DefaultSavePathShape(p: DeepReactivePolicy)
    ensures IsPrefix("/tmp/" + NamePrefix, DefaultSavePath(p))
    ensures IsSuffix("/model.ckpt", DefaultSavePath(p))
    ensures DefaultSavePath(p)[5..|DefaultSavePath(p)| - 11] == Name(p)
  {
    var body := Join(LayerStrings(p.layers), '+');
    var path := DefaultSavePath(p);
    assert Name(p) == NamePrefix + body;
    assert path == "/tmp/" + NamePrefix + (body + "/model.ckpt");
    PrefixOfAppend("/tmp/" + NamePrefix, body + "/model.ckpt");
    SuffixOfAppend("/tmp/" + Name(p), "/model.ckpt");
    assert path[5..|path| - 11] == Name(p);
  }
}
