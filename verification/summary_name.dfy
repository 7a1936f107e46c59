/** `PolicyOptimizer._get_summary_name` (tfmdp/train/optimizer.py:176-204): the
    short name under which a variable's or gradient's statistics are written.
    Each `re.search` of a fixed pattern is modelled as a leftmost search for
    the position where a predicate describing that pattern holds. */
module SummaryName {
  import opened Wrappers
  import opened Text
  import opened PolicyNetwork

  const BetaSubTail := "/LayerNorm/batchnorm/sub/"
  const BetaTail := "/LayerNorm/beta"
  const GammaMulTail := "/LayerNorm/batchnorm/mul/"
  const GammaTail := "/LayerNorm/gamma"

  /** The first `/` at or after `i`, or `|s|` when there is none. */
  function NextSlash(s: string, i: nat): (r: nat)
    requires i <= |s|
    ensures i <= r <= |s|
    ensures r < |s| ==> s[r] == '/'
    ensures forall k :: i <= k < r ==> s[k] != '/'
    decreases |s| - i
  {
    if i == |s| || s[i] == '/' then i else NextSlash(s, i + 1)
  }

  /** The end of the run of decimal digits starting at `i`. */
  function DigitRunEnd(s: string, i: nat): (r: nat)
    requires i <= |s|
    ensures i <= r <= |s|
    ensures r < |s| ==> !IsDigit(s[r])
    ensures forall k :: i <= k < r ==> IsDigit(s[k])
    decreases |s| - i
  {
    if i == |s| || !IsDigit(s[i]) then i else DigitRunEnd(s, i + 1)
  }

  /** The least position in `[from, to)` where `P` holds: how `re.search`
      picks among the places a pattern could match. */
  function Leftmost(from: nat, to: nat, P: nat -> bool): (r: Option<nat>)
    requires from <= to
    ensures r.Some? ==> from <= r.value < to && P(r.value)
    ensures r.Some? ==> (forall k :: from <= k < r.value ==> !P(k))
    ensures r.None? ==> (forall k :: from <= k < to ==> !P(k))
    decreases (to as int) - (from as int)
  {
    if from == to then None
    else if P(from) then Some(from)
    else Leftmost(from + 1, to, P)
  }

  /** `/([^/]+)/([^/]+)` followed by `tail` matches at `p`. Each group is a
      nonempty run of non-slashes ended by a slash, so it reaches exactly to
      the next slash. */
  predicate ScopePairAt(s: string, p: nat, tail: string) {
    && p < |s| && s[p] == '/'
    && var q := NextSlash(s, p + 1);
    && p + 1 < q < |s|
    && var r := NextSlash(s, q + 1);
    && q + 1 < r
    && IsPrefix(tail, s[r..])
  }

  /** `'{}/{}'.format(m.group(1), m.group(2))` for a match at `p`. */
  function PairName(s: string, p: nat, tail: string): string
    requires ScopePairAt(s, p, tail)
  {
    var q := NextSlash(s, p + 1);
    var r := NextSlash(s, q + 1);
    s[p + 1..q] + "/" + s[q + 1..r]
  }

  /** The pattern `/([^/]+)/([^/]+)` + `tail` matches somewhere in `s`. */
  predicate PairMatches(s: string, tail: string) {
    exists p: nat | p < |s| :: ScopePairAt(s, p, tail)
  }

  /** `re.search` of the pair pattern: the leftmost match, if any. */
  function FindPair(s: string, tail: string): (r: Option<nat>)
    ensures r.Some? ==> ScopePairAt(s, r.value, tail)
    ensures r.Some? ==> forall p: nat :: p < r.value ==> !ScopePairAt(s, p, tail)
    ensures r.None? <==> !PairMatches(s, tail)
  {
    var r := Leftmost(0, |s|, (p: nat) => ScopePairAt(s, p, tail));
    assert r.Some? ==> forall p: nat :: p < r.value ==> !ScopePairAt(s, p, tail) by {
      if r.Some? {
        forall p: nat | p < r.value ensures !ScopePairAt(s, p, tail) {
          assert !(((q: nat) => ScopePairAt(s, q, tail))(p));
        }
      }
    }
    assert r.None? ==> !PairMatches(s, tail) by {
      if r.None? {
        forall p: nat | p < |s| ensures !ScopePairAt(s, p, tail) {
          assert !(((q: nat) => ScopePairAt(s, q, tail))(p));
        }
      }
    }
    r
  }

  /** `hidden(\d+)` matches at `p`. */
  predicate HiddenAt(s: string, p: nat) {
    OccursAt(s, p, "hidden") && p + 6 < |s| && IsDigit(s[p + 6])
  }

  /** `output/([^/]+)/dense/` matches at `p`. */
  predicate OutputAt(s: string, p: nat) {
    && OccursAt(s, p, "output/")
    && var q := NextSlash(s, p + 7);
    && p + 7 < q
    && IsPrefix("/dense/", s[q..])
  }

  /** Some variant of the layer-norm `beta` pattern pair matches. */
  predicate MatchesBeta(s: string) {
    PairMatches(s, BetaSubTail) || PairMatches(s, BetaTail)
  }

  predicate MatchesGamma(s: string) {
    PairMatches(s, GammaMulTail) || PairMatches(s, GammaTail)
  }

  predicate MatchesHidden(s: string) {
    exists p: nat | p < |s| :: HiddenAt(s, p)
  }

  predicate MatchesOutput(s: string) {
    exists p: nat | p < |s| :: OutputAt(s, p)
  }

  predicate KernelLike(s: string) {
    Contains(s, "MatMul") || Contains(s, "kernel")
  }

  predicate BiasLike(s: string) {
    Contains(s, "BiasAdd") || Contains(s, "bias")
  }

  /** The first two `if`s: the two scopes captured by the first pattern of the
      pair if it matches anywhere, else by the second, followed by `suffix`. */
  function LayerNormName(s: string, first: string, second: string, suffix: string): (r: Option<string>)
    ensures r.Some? <==> PairMatches(s, first) || PairMatches(s, second)
    ensures PairMatches(s, first) ==> r == Some(PairName(s, FindPair(s, first).value, first) + suffix)
    ensures !PairMatches(s, first) && PairMatches(s, second) ==>
      r == Some(PairName(s, FindPair(s, second).value, second) + suffix)
  {
    var m1 := FindPair(s, first);
    var m2 := FindPair(s, second);
    if m1.Some? then Some(PairName(s, m1.value, first) + suffix)
    else if m2.Some? then Some(PairName(s, m2.value, second) + suffix)
    else None
  }

  /** `re.search(r'hidden(\d+)', name)`: the leftmost match, if any. */
  function FindHidden(s: string): (r: Option<nat>)
    ensures r.Some? ==> HiddenAt(s, r.value)
    ensures r.Some? ==> forall p: nat :: p < r.value ==> !HiddenAt(s, p)
    ensures r.None? <==> !MatchesHidden(s)
  {
    var r := Leftmost(0, |s|, (p: nat) => HiddenAt(s, p));
    assert r.Some? ==> forall p: nat :: p < r.value ==> !HiddenAt(s, p) by {
      if r.Some? {
        forall p: nat | p < r.value ensures !HiddenAt(s, p) {
          assert !(((q: nat) => HiddenAt(s, q))(p));
        }
      }
    }
    assert r.None? ==> !MatchesHidden(s) by {
      if r.None? {
        forall p: nat | p < |s| ensures !HiddenAt(s, p) {
          assert !(((q: nat) => HiddenAt(s, q))(p));
        }
      }
    }
    r
  }

  /** `re.search(r'output/([^/]+)/dense/', name)`: the leftmost match, if any. */
  function FindOutput(s: string): (r: Option<nat>)
    ensures r.Some? ==> OutputAt(s, r.value)
    ensures r.Some? ==> forall p: nat :: p < r.value ==> !OutputAt(s, p)
    ensures r.None? <==> !MatchesOutput(s)
  {
    var r := Leftmost(0, |s|, (p: nat) => OutputAt(s, p));
    assert r.Some? ==> forall p: nat :: p < r.value ==> !OutputAt(s, p) by {
      if r.Some? {
        forall p: nat | p < r.value ensures !OutputAt(s, p) {
          assert !(((q: nat) => OutputAt(s, q))(p));
        }
      }
    }
    assert r.None? ==> !MatchesOutput(s) by {
      if r.None? {
        forall p: nat | p < |s| ensures !OutputAt(s, p) {
          assert !(((q: nat) => OutputAt(s, q))(p));
        }
      }
    }
    r
  }

  /** `hidden<digits>` at the first such match, else `output/<scope>` at the
      first such match, else nothing. */
  function LayerPart(s: string): (r: string)
    ensures MatchesHidden(s) ==> IsPrefix("hidden", r) && 6 < |r|
    ensures !MatchesHidden(s) && MatchesOutput(s) ==> IsPrefix("output/", r) && 7 < |r|
    ensures r == "" <==> !MatchesHidden(s) && !MatchesOutput(s)
    // the captured group of the leftmost match: the whole digit run after `hidden`,
    // or the scope between `output/` and the next slash
    ensures FindHidden(s).Some? ==>
      var p := FindHidden(s).value; r == "hidden" + s[p + 6..DigitRunEnd(s, p + 6)]
    ensures FindHidden(s).None? && FindOutput(s).Some? ==>
      var p := FindOutput(s).value; r == "output/" + s[p + 7..NextSlash(s, p + 7)]
  {
    match FindHidden(s)
    case Some(p) =>
      PrefixOfAppend("hidden", s[p + 6..DigitRunEnd(s, p + 6)]);
      "hidden" + s[p + 6..DigitRunEnd(s, p + 6)]
    case None =>
      match FindOutput(s)
      case Some(p) =>
        PrefixOfAppend("output/", s[p + 7..NextSlash(s, p + 7)]);
        "output/" + s[p + 7..NextSlash(s, p + 7)]
      case None => ""
  }

  /** The suffix naming the variable's role: `/kernel` before `/bias`. */
  function Role(s: string): (r: string)
    ensures KernelLike(s) ==> r == "/kernel"
    ensures !KernelLike(s) && BiasLike(s) ==> r == "/bias"
    ensures r == "" <==> !KernelLike(s) && !BiasLike(s)
  {
    if KernelLike(s) then "/kernel" else if BiasLike(s) then "/bias" else ""
  }

  /** `_get_summary_name(name)`. */
  function SummaryName(s: string): (r: string)
    ensures MatchesBeta(s) ==> IsSuffix(BetaTail, r)
    ensures MatchesBeta(s) ==> Some(r) == LayerNormName(s, BetaSubTail, BetaTail, BetaTail)
    ensures !MatchesBeta(s) && MatchesGamma(s) ==> IsSuffix(GammaTail, r)
    ensures !MatchesBeta(s) && MatchesGamma(s) ==> Some(r) == LayerNormName(s, GammaMulTail, GammaTail, GammaTail)
    ensures !MatchesBeta(s) && !MatchesGamma(s) ==> r == LayerPart(s) + Role(s)
  {
    match LayerNormName(s, BetaSubTail, BetaTail, BetaTail)
    case Some(name) =>
      LayerNormSuffix(s, BetaSubTail, BetaTail, BetaTail);
      name
    case None =>
      match LayerNormName(s, GammaMulTail, GammaTail, GammaTail)
      case Some(name) =>
        LayerNormSuffix(s, GammaMulTail, GammaTail, GammaTail);
        name
      case None => LayerPart(s) + Role(s)
  }

  lemma LayerNormSuffix(s: string, first: string, second: string, suffix: string)
    ensures var r := LayerNormName(s, first, second, suffix); r.Some? ==> IsSuffix(suffix, r.value)
  {
    if PairMatches(s, first) {
      SuffixOfAppend(PairName(s, FindPair(s, first).value, first), suffix);
    } else if PairMatches(s, second) {
      SuffixOfAppend(PairName(s, FindPair(s, second).value, second), suffix);
    }
  }

  /** The order of precedence: layer-norm `beta` over `gamma`, both over the
      layer part; `hidden<digits>` over `output/<scope>`; `/kernel` over
      `/bias`; and a name matching no pattern gives the empty string, which no
      other name does. */
  lemma Precedence(s: string)
    ensures var r := SummaryName(s);
      && (!MatchesBeta(s) && !MatchesGamma(s) && MatchesHidden(s) ==> IsPrefix("hidden", r))
      && (!MatchesBeta(s) && !MatchesGamma(s) && !MatchesHidden(s) && MatchesOutput(s) ==> IsPrefix("output/", r))
      && (!MatchesBeta(s) && !MatchesGamma(s) && KernelLike(s) ==> IsSuffix("/kernel", r))
      && (!MatchesBeta(s) && !MatchesGamma(s) && !KernelLike(s) && BiasLike(s) ==> IsSuffix("/bias", r))
      && (r == "" <==>
            !MatchesBeta(s) && !MatchesGamma(s) && !MatchesHidden(s) && !MatchesOutput(s)
            && !KernelLike(s) && !BiasLike(s))
  {
    var r := SummaryName(s);
    if !MatchesBeta(s) && !MatchesGamma(s) {
      var layer, role := LayerPart(s), Role(s);
      assert r == layer + role;
      if MatchesHidden(s) {
        assert r[..6] == layer[..6];
      } else if MatchesOutput(s) {
        assert r[..7] == layer[..7];
      }
      SuffixOfAppend(layer, role);
    } else if MatchesBeta(s) {
      assert |BetaTail| <= |r|;
    } else {
      assert |GammaTail| <= |r|;
    }
  }

  // ---- the names the policy's own variables get ----

  /** No character of `s` is `c`. */
  predicate Lacks(s: string, c: char) {
    c !in s
  }

  /** A string lacking a character contains no word that has it. */
  lemma LacksNoContains(s: string, w: string, j: nat, c: char)
    requires j < |w| && w[j] == c && Lacks(s, c)
    ensures !Contains(s, w)
  {
  }

  /** A pair pattern matches only where its tail occurs. */
  lemma PairMatchesContains(s: string, tail: string)
    requires PairMatches(s, tail)
    ensures Contains(s, tail)
  {
    var p: nat :| p < |s| && ScopePairAt(s, p, tail);
    var r := NextSlash(s, NextSlash(s, p + 1) + 1);
    assert s[r..r + |tail|] == s[r..][..|tail|];
    assert OccursAt(s, r, tail);
  }

  /** Without a capital `L` in the name, no layer-norm pattern matches. */
  lemma NoLayerNorm(s: string)
    requires Lacks(s, 'L')
    ensures !MatchesBeta(s) && !MatchesGamma(s)
  {
    var tails := [BetaSubTail, BetaTail, GammaMulTail, GammaTail];
    forall t | t in tails ensures !PairMatches(s, t) {
      assert t[1] == 'L';
      LacksNoContains(s, t, 1, 'L');
      if PairMatches(s, t) {
        PairMatchesContains(s, t);
      }
    }
  }

  /** `NextSlash` finds the first slash. */
  lemma {:induction false} NextSlashIs(s: string, i: nat, j: nat)
    requires i <= j < |s| && s[j] == '/'
    requires forall k :: i <= k < j ==> s[k] != '/'
    ensures NextSlash(s, i) == j
    decreases j - i
  {
    if i < j {
      NextSlashIs(s, i + 1, j);
    }
  }

  /** Slashes at `i`, `q` and `r` with none between them or before `i`, and
      `tail` at `r`: the leftmost match of the pair pattern is at `i`, and its
      groups are the two runs between the slashes. */
  lemma PairAt(s: string, i: nat, q: nat, r: nat, tail: string)
    requires i + 1 < q && q + 1 < r && r + |tail| <= |s|
    requires s[i] == '/' && s[q] == '/' && 0 < |tail| && tail[0] == '/' && s[r..r + |tail|] == tail
    requires forall k :: 0 <= k < i ==> s[k] != '/'
    requires forall k :: i < k < q ==> s[k] != '/'
    requires forall k :: q < k < r ==> s[k] != '/'
    ensures FindPair(s, tail) == Some(i) && PairName(s, i, tail) == s[i + 1..q] + "/" + s[q + 1..r]
  {
    PairFromSlashes(s, i, q, r, tail);
    FirstPair(s, i, tail);
  }

  lemma PairFromSlashes(s: string, i: nat, q: nat, r: nat, tail: string)
    requires i + 1 < q && q + 1 < r && r + |tail| <= |s|
    requires s[i] == '/' && s[q] == '/' && 0 < |tail| && tail[0] == '/' && s[r..r + |tail|] == tail
    requires forall k :: i < k < q ==> s[k] != '/'
    requires forall k :: q < k < r ==> s[k] != '/'
    ensures NextSlash(s, i + 1) == q && NextSlash(s, q + 1) == r && ScopePairAt(s, i, tail)
  {
    assert s[r] == s[r..r + |tail|][0] == '/';
    NextSlashIs(s, i + 1, q);
    NextSlashIs(s, q + 1, r);
    assert s[r..][..|tail|] == s[r..r + |tail|];
  }

  /** A match at the first slash of the name is the leftmost match. */
  lemma FirstPair(s: string, i: nat, tail: string)
    requires ScopePairAt(s, i, tail)
    requires forall k :: 0 <= k < i ==> s[k] != '/'
    ensures FindPair(s, tail) == Some(i)
  {
    assert PairMatches(s, tail);
    var m := FindPair(s, tail).value;
    assert s[m] == '/';
    assert !(i < m);
  }

  /** In `pre/a/b<tail>...` with no slash in `pre`, `a` or `b`, the leftmost
      match of the pair pattern is at the slash after `pre` and captures `a`
      and `b`. */
  lemma PairAfterPrefix(pre: string, a: string, b: string, tail: string, rest: string)
    requires '/' !in pre && '/' !in a && '/' !in b && 0 < |a| && 0 < |b|
    requires 0 < |tail| && tail[0] == '/'
    ensures var s := pre + "/" + a + "/" + b + tail + rest;
      FindPair(s, tail) == Some(|pre|) && PairName(s, |pre|, tail) == a + "/" + b
  {
    var s := pre + "/" + a + "/" + b + tail + rest;
    var i, q, r := |pre|, |pre| + 1 + |a|, |pre| + 2 + |a| + |b|;
    assert s[i] == '/' && s[q] == '/';
    assert s[r..r + |tail|] == tail;
    assert forall k :: 0 <= k < i ==> s[k] == pre[k];
    assert forall k :: i < k < q ==> s[k] == a[k - i - 1];
    assert forall k :: q < k < r ==> s[k] == b[k - q - 1];
    assert s[i + 1..q] == a;
    assert s[q + 1..r] == b;
    PairAt(s, i, q, r, tail);
  }

  /** The name of a layer-norm `beta` is kept whole: the two scopes enclosing
      `LayerNorm` and the parameter. */
  lemma BetaNameKept(pre: string, a: string, b: string, rest: string)
    requires '/' !in pre && '/' !in a && '/' !in b && 0 < |a| && 0 < |b|
    requires !PairMatches(pre + "/" + a + "/" + b + BetaTail + rest, BetaSubTail)
    ensures SummaryName(pre + "/" + a + "/" + b + BetaTail + rest) == a + "/" + b + BetaTail
  {
    PairAfterPrefix(pre, a, b, BetaTail, rest);
  }

  /** Likewise for a layer-norm `gamma`, when nothing names a `beta`. */
  lemma GammaNameKept(pre: string, a: string, b: string, rest: string)
    requires '/' !in pre && '/' !in a && '/' !in b && 0 < |a| && 0 < |b|
    requires !MatchesBeta(pre + "/" + a + "/" + b + GammaTail + rest)
    requires !PairMatches(pre + "/" + a + "/" + b + GammaTail + rest, GammaMulTail)
    ensures SummaryName(pre + "/" + a + "/" + b + GammaTail + rest) == a + "/" + b + GammaTail
  {
    PairAfterPrefix(pre, a, b, GammaTail, rest);
  }

  /** `DigitRunEnd` stops at the first non-digit. */
  lemma {:induction false} DigitRunEndIs(s: string, i: nat, j: nat)
    requires i <= j < |s| && !IsDigit(s[j])
    requires forall k :: i <= k < j ==> IsDigit(s[k])
    ensures DigitRunEnd(s, i) == j
    decreases j - i
  {
    if i < j {
      DigitRunEndIs(s, i + 1, j);
    }
  }

  /** A name whose only `h` starts the `hidden` just before a run of digits:
      the layer part is `hidden` and exactly those digits. */
  lemma HiddenLayerPart(pre: string, d: string, y: string)
    requires Lacks(pre, 'h')
    requires 0 < |d| && AllDigits(d) && 0 < |y| && !IsDigit(y[0])
    ensures LayerPart(pre + "hidden" + d + y) == "hidden" + d
  {
    var s := pre + "hidden" + d + y;
    var p := |pre|;
    var e := p + 6;
    assert s[p..e] == "hidden";
    assert s[e] == d[0];
    assert forall k :: 0 <= k < p ==> s[k] == pre[k];
    FirstHidden(s, p);
    assert forall k :: e <= k < e + |d| ==> s[k] == d[k - e];
    assert s[e + |d|] == y[0];
    DigitRunEndIs(s, e, e + |d|);
    assert s[e..e + |d|] == d;
  }

  /** A match of the hidden pattern with no `h` before it is the leftmost. */
  lemma FirstHidden(s: string, p: nat)
    requires HiddenAt(s, p)
    requires forall k :: 0 <= k < p ==> s[k] != 'h'
    ensures FindHidden(s) == Some(p)
  {
    assert MatchesHidden(s);
    var m := FindHidden(s).value;
    assert s[m] == s[m..m + 6][0];
  }


  /** The name of the kernel or bias of the dense layer in the policy's hidden
      layer scope `hidden<n>`, the policy's scope being opened inside `outer`. */
  function HiddenDenseVar(outer: string, n: nat, role: string): string {
    VarName(outer, "hidden" + NatToString(n) + "/dense/" + role + ":0")
  }

  lemma HiddenDenseVarSplit(outer: string, n: nat, role: string)
    ensures HiddenDenseVar(outer, n, role) == (outer + "policy/") + "hidden" + NatToString(n) + ("/dense/" + role + ":0")
  {
  }

  /** A run of digits lacks every character that is not a digit. */
  lemma DigitsLack(d: string, c: char)
    requires AllDigits(d) && !IsDigit(c)
    ensures Lacks(d, c)
  {
  }

  /** `kernel` occurs in the name of a dense layer's kernel. */
  lemma HiddenKernelRole(pre: string, d: string)
    ensures Role(pre + "hidden" + d + "/dense/kernel:0") == "/kernel"
  {
    ContainsMiddle(pre + "hidden" + d + "/dense/", "kernel", ":0");
    assert pre + "hidden" + d + "/dense/" + "kernel" + ":0" == pre + "hidden" + d + "/dense/kernel:0";
  }

  /** The kernel of hidden layer `n` is summarised as `hidden<n>/kernel`, when
      the enclosing scope has no `h` (so no earlier `hidden`) and no `L` (so no
      layer-norm pattern). */
  lemma HiddenKernelSummary(outer: string, n: nat)
    requires Lacks(outer, 'h') && Lacks(outer, 'L')
    ensures SummaryName(HiddenDenseVar(outer, n, "kernel")) == "hidden" + NatToString(n) + "/kernel"
  {
    var d := NatToString(n);
    var pre := outer + "policy/";
    HiddenDenseVarSplit(outer, n, "kernel");
    assert "/dense/" + "kernel" + ":0" == "/dense/kernel:0";
    DigitsLack(d, 'L');
    NoLayerNorm(pre + "hidden" + d + "/dense/kernel:0");
    HiddenLayerPart(pre, d, "/dense/kernel:0");
    HiddenKernelRole(pre, d);
  }

  /** Without `M` or `k` before or in the layer number, a dense layer's bias has
      neither `MatMul` nor `kernel` in its name, and `bias` does occur in it. */
  lemma HiddenBiasRole(pre: string, d: string)
    requires Lacks(pre, 'M') && Lacks(pre, 'k') && Lacks(d, 'M') && Lacks(d, 'k')
    ensures Role(pre + "hidden" + d + "/dense/bias:0") == "/bias"
  {
    var s := pre + "hidden" + d + "/dense/bias:0";
    LacksNoContains(s, "MatMul", 0, 'M');
    LacksNoContains(s, "kernel", 0, 'k');
    ContainsMiddle(pre + "hidden" + d + "/dense/", "bias", ":0");
    assert pre + "hidden" + d + "/dense/" + "bias" + ":0" == s;
  }

  /** The bias of hidden layer `n` is summarised as `hidden<n>/bias`, when the
      enclosing scope has none of `h`, `L`, `M` and `k`. */
  lemma HiddenBiasSummary(outer: string, n: nat)
    requires Lacks(outer, 'h') && Lacks(outer, 'L') && Lacks(outer, 'M') && Lacks(outer, 'k')
    ensures SummaryName(HiddenDenseVar(outer, n, "bias")) == "hidden" + NatToString(n) + "/bias"
  {
    var d := NatToString(n);
    var pre := outer + "policy/";
    HiddenDenseVarSplit(outer, n, "bias");
    assert "/dense/" + "bias" + ":0" == "/dense/bias:0";
    DigitsLack(d, 'L');
    DigitsLack(d, 'M');
    DigitsLack(d, 'k');
    NoLayerNorm(pre + "hidden" + d + "/dense/bias:0");
    HiddenLayerPart(pre, d, "/dense/bias:0");
    HiddenBiasRole(pre, d);
  }

  /** `hidden` followed by anything cannot straddle a slash, so a name made of a
      part without `h`, a part without `hidden`, and a part without `h` that
      starts with a slash has no match of the hidden pattern. */
  lemma NoHiddenAcross(a: string, b: string, c: string)
    requires Lacks(a, 'h') && Lacks(c, 'h') && 0 < |c| && c[0] == '/'
    requires !Contains(b, "hidden")
    ensures !MatchesHidden(a + b + c)
  {
    var s := a + b + c;
    var k := |a| + |b|;
    forall p: nat | p < |s|
      ensures !HiddenAt(s, p)
    {
      if p + 6 <= |s| {
        assert s[p..p + 6][0] == s[p];
      }
      if p < |a| {
        assert s[p] == a[p];
      } else if k <= p {
        assert s[p] == c[p - k];
      } else if p + 6 <= k {
        assert s[p..p + 6] == b[p - |a|..p - |a| + 6];
        assert !OccursAt(b, p - |a|, "hidden");
      } else {
        assert s[k] == c[0];
        if p + 6 <= |s| {
          assert s[p..p + 6][k - p] == s[k];
        }
      }
    }
  }


  /** A match of the output pattern with no `u` before it is the leftmost. */
  lemma FirstOutput(s: string, p: nat)
    requires OutputAt(s, p)
    requires forall k :: 0 <= k < p ==> s[k] != 'u'
    ensures FindOutput(s) == Some(p)
  {
    assert p < |s|;
    var r := FindOutput(s);
    assert r.Some? by {
      assert MatchesOutput(s);
    }
    assert !(p < r.value);
    if r.value < p {
      NoOutputWithoutU(s, r.value);
      assert false;
    }
  }

  /** A match of the output pattern has `u` as its second letter. */
  lemma NoOutputWithoutU(s: string, m: nat)
    requires OutputAt(s, m)
    ensures s[m + 1] == 'u'
  {
    assert s[m..m + 7][1] == s[m + 1];
  }


  /** A name `a + f + c`, where `a` ends with the first `output/` (no `u`
      before it), `f` is a nonempty slash-free scope and `c` starts with
      `/dense/`: unless the hidden pattern matches, the layer part is `output/`
      and exactly that scope. */
  lemma OutputLayerPart(a: string, f: string, c: string)
    requires 7 <= |a| && a[|a| - 7..] == "output/"
    requires forall k :: 0 <= k < |a| - 7 ==> a[k] != 'u'
    requires '/' !in f && 0 < |f|
    requires 7 <= |c| && c[..7] == "/dense/"
    requires !MatchesHidden(a + f + c)
    ensures LayerPart(a + f + c) == "output/" + f
  {
    var s := a + f + c;
    var p := |a| - 7;
    var q := |a| + |f|;
    assert s[p..p + 7] == a[p..];
    assert forall k :: |a| <= k < q ==> s[k] == f[k - |a|];
    assert s[q] == c[0];
    NextSlashIs(s, |a|, q);
    assert s[q..][..7] == c[..7];
    assert OutputAt(s, p);
    assert forall k :: 0 <= k < p ==> s[k] == a[k];
    FirstOutput(s, p);
    assert s[|a|..q] == f;
  }

  /** The name of the kernel of the output layer for the action fluent scoped
      `f` (its `/`s already replaced), the policy's scope opened inside `outer`. */
  function OutputKernelVar(outer: string, f: string): string {
    VarName(outer, "output/" + f + "/dense/kernel:0")
  }

  lemma OutputKernelVarSplit(outer: string, f: string)
    ensures OutputKernelVar(outer, f) == (outer + "policy/" + "output/") + f + "/dense/kernel:0"
  {
  }

  /** `kernel` occurs in the name of an output layer's kernel. */
  lemma OutputKernelRole(a: string, f: string)
    ensures Role(a + f + "/dense/kernel:0") == "/kernel"
  {
    ContainsMiddle(a + f + "/dense/", "kernel", ":0");
    assert a + f + "/dense/" + "kernel" + ":0" == a + f + "/dense/kernel:0";
  }

  /** The kernel of the output layer for fluent scope `f` is summarised as
      `output/<f>/kernel`, when neither the enclosing scope nor `f` has an `L`,
      the enclosing scope has no `h` or `u`, and `f` has no `hidden`. */
  lemma OutputKernelSummary(outer: string, f: string)
    requires Lacks(outer, 'h') && Lacks(outer, 'u') && Lacks(outer, 'L')
    requires Lacks(f, 'L') && '/' !in f && 0 < |f| && !Contains(f, "hidden")
    ensures SummaryName(OutputKernelVar(outer, f)) == "output/" + f + "/kernel"
  {
    var pre := outer + "policy/";
    var a := pre + "output/";
    var c := "/dense/kernel:0";
    OutputKernelVarSplit(outer, f);
    assert Lacks(pre, 'u') && Lacks(a, 'h') && Lacks(a, 'L');
    assert a[|a| - 7..] == "output/";
    assert forall k :: 0 <= k < |a| - 7 ==> a[k] == pre[k];
    NoHiddenAcross(a, f, c);
    NoLayerNorm(a + f + c);
    assert c[..7] == "/dense/";
    OutputLayerPart(a, f, c);
    OutputKernelRole(a, f);
  }
}
