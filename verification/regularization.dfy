/** `PolicyOptimizer._build_regularization_loss_graph`
    (tfmdp/train/optimizer.py:128-140): the loss becomes a sum of the base loss
    and one penalty per regularised variable. The loss is modelled as the list
    of its summands, in the order they are added; what a regulariser computes
    is opaque (`R`). */
module Regularization {
  import opened Wrappers
  import opened Text
  import opened Tensors
  import opened Policy
  import opened PolicyNetwork

  // `tf.trainable_variables(r'.*/kernel:0$')` keeps the names ending with this
  // (`re.match` anchors the start, `.*` absorbs any prefix, `$` the end).
  const KernelSuffix := "/kernel:0"

  // The same for `r'.*/bias:0$'`.
  const BiasSuffix := "/bias:0"

  /** A summand of `self.loss`: the base loss, or `regularizer(variable)`. */
  datatype Term<R> = BaseLoss | Penalty(regularizer: R, variable: string)

  /** The names of the variables in `vars` that end with `suffix`, in order. */
  function NamesEndingWith(vars: seq<Var>, suffix: string): (r: seq<string>)
    ensures |r| <= |vars|
    ensures forall j :: 0 <= j < |r| ==> IsSuffix(suffix, r[j])
    ensures forall n :: n in r <==> exists i :: 0 <= i < |vars| && vars[i].name == n && IsSuffix(suffix, n)
    decreases |vars|
  {
    if |vars| == 0 then []
    else
      var rest := NamesEndingWith(vars[1..], suffix);
      assert forall i :: 0 <= i < |vars| - 1 ==> vars[1..][i] == vars[i + 1];
      (if IsSuffix(suffix, vars[0].name) then [vars[0].name] else []) + rest
  }

  /** `for v in vs: self.loss += regularizer(v)`, when a regulariser is given. */
  function Penalties<R>(reg: Option<R>, names: seq<string>): (r: seq<Term<R>>)
    ensures reg.None? ==> r == []
    ensures reg.Some? ==> |r| == |names| && forall j :: 0 <= j < |r| ==> r[j] == Penalty(reg.value, names[j])
    decreases |names|
  {
    if reg.None? || |names| == 0 then []
    else [Penalty(reg.value, names[0])] + Penalties(reg, names[1..])
  }

  /** The number of penalties a regulariser adds: one per matching variable
      when it is given, none otherwise. */
  function PenaltyCount<R>(reg: Option<R>, vars: seq<Var>, suffix: string): nat {
    if reg.Some? then |NamesEndingWith(vars, suffix)| else 0
  }

  /** The summands of `self.loss` after the method: the base loss, then one
      penalty per kernel when `kernel_regularizer` is given, then one per bias
      when `bias_regularizer` is given. */
  function RegularizedLoss<R>(vars: seq<Var>, kernelReg: Option<R>, biasReg: Option<R>): (r: seq<Term<R>>)
    ensures 1 <= |r| && r[0] == BaseLoss
    ensures |r| == 1 + PenaltyCount(kernelReg, vars, KernelSuffix) + PenaltyCount(biasReg, vars, BiasSuffix)
    ensures kernelReg.None? && biasReg.None? ==> r == [BaseLoss]
  {
    [BaseLoss]
    + Penalties(kernelReg, NamesEndingWith(vars, KernelSuffix))
    + Penalties(biasReg, NamesEndingWith(vars, BiasSuffix))
  }

  /** The kernel penalties come first, each with `kernel_regularizer` applied
      to a kernel; the bias penalties follow, each with `bias_regularizer`
      applied to a bias. */
  lemma RegularizedLossOrder<R>(vars: seq<Var>, kernelReg: Option<R>, biasReg: Option<R>)
    ensures var r := RegularizedLoss(vars, kernelReg, biasReg);
      var k := PenaltyCount(kernelReg, vars, KernelSuffix);
      && AllPenalise(r[1..1 + k], kernelReg, KernelSuffix)
      && AllPenalise(r[1 + k..], biasReg, BiasSuffix)
  {
    var kernels := Penalties(kernelReg, NamesEndingWith(vars, KernelSuffix));
    var biases := Penalties(biasReg, NamesEndingWith(vars, BiasSuffix));
    var r := RegularizedLoss(vars, kernelReg, biasReg);
    assert r == [BaseLoss] + kernels + biases;
    assert r[1..1 + |kernels|] == kernels;
    assert r[1 + |kernels|..] == biases;
    PenaltiesAll(kernelReg, NamesEndingWith(vars, KernelSuffix), KernelSuffix);
    PenaltiesAll(biasReg, NamesEndingWith(vars, BiasSuffix), BiasSuffix);
  }

  /** Every term is a penalty applying `reg` to a name that ends with `suffix`. */
  ghost predicate AllPenalise<R>(ts: seq<Term<R>>, reg: Option<R>, suffix: string) {
    forall j :: 0 <= j < |ts| ==> ts[j].Penalty? && Some(ts[j].regularizer) == reg && IsSuffix(suffix, ts[j].variable)
  }

  lemma PenaltiesAll<R>(reg: Option<R>, names: seq<string>, suffix: string)
    requires forall j :: 0 <= j < |names| ==> IsSuffix(suffix, names[j])
    ensures AllPenalise(Penalties(reg, names), reg, suffix)
  {
  }

  /** Every variable the pattern matches is penalised, and every penalty is of
      a variable in the graph: one penalty per kernel, one per bias. */
  lemma RegularizedLossCovers<R>(vars: seq<Var>, kernelReg: Option<R>, biasReg: Option<R>)
    ensures var r := RegularizedLoss(vars, kernelReg, biasReg);
      && (forall i :: 0 <= i < |vars| && kernelReg.Some? && IsSuffix(KernelSuffix, vars[i].name) ==>
            Penalty(kernelReg.value, vars[i].name) in r)
      && (forall i :: 0 <= i < |vars| && biasReg.Some? && IsSuffix(BiasSuffix, vars[i].name) ==>
            Penalty(biasReg.value, vars[i].name) in r)
      && (forall t :: t in r && t.Penalty? ==> exists i :: 0 <= i < |vars| && vars[i].name == t.variable)
  {
    var kn := NamesEndingWith(vars, KernelSuffix);
    var bn := NamesEndingWith(vars, BiasSuffix);
    var kernels := Penalties(kernelReg, kn);
    var biases := Penalties(biasReg, bn);
    var r := RegularizedLoss(vars, kernelReg, biasReg);
    assert r == [BaseLoss] + kernels + biases;
    forall i | 0 <= i < |vars| && kernelReg.Some? && IsSuffix(KernelSuffix, vars[i].name)
      ensures Penalty(kernelReg.value, vars[i].name) in r
    {
      var j :| 0 <= j < |kn| && kn[j] == vars[i].name;
      assert kernels[j] in r;
    }
    forall i | 0 <= i < |vars| && biasReg.Some? && IsSuffix(BiasSuffix, vars[i].name)
      ensures Penalty(biasReg.value, vars[i].name) in r
    {
      var j :| 0 <= j < |bn| && bn[j] == vars[i].name;
      assert biases[j] in r;
    }
    forall t | t in r && t.Penalty?
      ensures exists i :: 0 <= i < |vars| && vars[i].name == t.variable
    {
      if t in kernels {
        var j :| 0 <= j < |kernels| && kernels[j] == t;
        assert kn[j] in kn;
      } else {
        assert t in biases;
        var j :| 0 <= j < |biases| && biases[j] == t;
        assert bn[j] in bn;
      }
    }
  }

  /** Each penalty in the loss uses the regulariser its variable's name calls
      for: the kernel regulariser on a kernel, the bias regulariser on a bias.
      As no name is both, no variable is penalised by the other's regulariser. */
  lemma RegulariserBySuffix<R>(vars: seq<Var>, kernelReg: Option<R>, biasReg: Option<R>)
    ensures var r := RegularizedLoss(vars, kernelReg, biasReg);
      forall j :: 1 <= j < |r| ==>
        && r[j].Penalty?
        && (IsSuffix(KernelSuffix, r[j].variable) ==> Some(r[j].regularizer) == kernelReg)
        && (IsSuffix(BiasSuffix, r[j].variable) ==> Some(r[j].regularizer) == biasReg)
  {
    var r := RegularizedLoss(vars, kernelReg, biasReg);
    var k := PenaltyCount(kernelReg, vars, KernelSuffix);
    RegularizedLossOrder(vars, kernelReg, biasReg);
    forall j | 1 <= j < |r|
      ensures && r[j].Penalty?
              && (IsSuffix(KernelSuffix, r[j].variable) ==> Some(r[j].regularizer) == kernelReg)
              && (IsSuffix(BiasSuffix, r[j].variable) ==> Some(r[j].regularizer) == biasReg)
    {
      if j < 1 + k {
        assert r[1..1 + k][j - 1] == r[j];
      } else {
        assert r[1 + k..][j - 1 - k] == r[j];
      }
      KernelIsNotBias(r[j].variable);
    }
  }

  /** No variable is both a kernel and a bias, so no variable is penalised twice
      when the two regularisers differ. */
  lemma KernelIsNotBias(name: string)
    ensures !(IsSuffix(KernelSuffix, name) && IsSuffix(BiasSuffix, name))
  {
    if IsSuffix(KernelSuffix, name) && IsSuffix(BiasSuffix, name) {
      ThirdLastChar(KernelSuffix, name);
      ThirdLastChar(BiasSuffix, name);
      assert false;
    }
  }

  /** A name ending with `t` shares `t`'s third-to-last character. */
  lemma ThirdLastChar(t: string, name: string)
    requires 3 <= |t| && IsSuffix(t, name)
    ensures name[|name| - 3] == t[|t| - 3]
  {
    assert name[|name| - |t|..][|t| - 3] == name[|name| - 3];
  }

  lemma {:induction false} NamesEndingWithAppend(a: seq<Var>, b: seq<Var>, suffix: string)
    ensures NamesEndingWith(a + b, suffix) == NamesEndingWith(a, suffix) + NamesEndingWith(b, suffix)
    decreases |a|
  {
    if |a| == 0 {
      assert a + b == b;
    } else {
      assert (a + b)[1..] == a[1..] + b;
      NamesEndingWithAppend(a[1..], b, suffix);
    }
  }

  /** Whether a variable name ends with `suffix` is decided by the constant tail
      the policy appends to it. */
  lemma TailDecides(outer: string, middle: string, tail: string, suffix: string)
    requires |suffix| <= |tail|
    ensures IsSuffix(suffix, VarName(outer, middle + tail)) <==> IsSuffix(suffix, tail)
  {
    assert VarName(outer, middle + tail) == (outer + "policy/" + middle) + tail;
    SuffixOfLongTail(outer + "policy/" + middle, tail, suffix);
  }

  /** Layer norm creates only `beta` and `gamma`: no kernel, no bias. */
  lemma {:induction false} InputNormHasNoKernelOrBias(outer: string, scopes: seq<string>, widths: seq<nat>)
    requires |scopes| == |widths|
    ensures NamesEndingWith(InputNormVars(outer, scopes, widths), KernelSuffix) == []
    ensures NamesEndingWith(InputNormVars(outer, scopes, widths), BiasSuffix) == []
    decreases |scopes|
  {
    if |scopes| > 0 {
      var head := [Var(VarName(outer, "input/" + scopes[0] + "/LayerNorm/beta:0"), [widths[0]]),
                   Var(VarName(outer, "input/" + scopes[0] + "/LayerNorm/gamma:0"), [widths[0]])];
      InputNormHasNoKernelOrBias(outer, scopes[1..], widths[1..]);
      NoKernelOrBiasInNorm(outer, "input/" + scopes[0], widths[0]);
      NamesEndingWithAppend(head, InputNormVars(outer, scopes[1..], widths[1..]), KernelSuffix);
      NamesEndingWithAppend(head, InputNormVars(outer, scopes[1..], widths[1..]), BiasSuffix);
    }
  }

  lemma NoKernelOrBiasInNorm(outer: string, scope: string, width: nat)
    ensures var vs := [Var(VarName(outer, scope + "/LayerNorm/beta:0"), [width]),
                       Var(VarName(outer, scope + "/LayerNorm/gamma:0"), [width])];
      NamesEndingWith(vs, KernelSuffix) == [] && NamesEndingWith(vs, BiasSuffix) == []
  {
    var beta, gamma := "/LayerNorm/beta:0", "/LayerNorm/gamma:0";
    TailDecides(outer, scope, beta, KernelSuffix);
    TailDecides(outer, scope, beta, BiasSuffix);
    TailDecides(outer, scope, gamma, KernelSuffix);
    TailDecides(outer, scope, gamma, BiasSuffix);
    assert beta[|beta| - 3] == 'a' && gamma[|gamma| - 3] == 'a';
    assert !IsSuffix(KernelSuffix, beta) && !IsSuffix(BiasSuffix, beta);
    assert !IsSuffix(KernelSuffix, gamma) && !IsSuffix(BiasSuffix, gamma);
    var vs := [Var(VarName(outer, scope + "/LayerNorm/beta:0"), [width]),
               Var(VarName(outer, scope + "/LayerNorm/gamma:0"), [width])];
    assert vs[1..][1..] == [];
  }

  /** A dense layer contributes exactly one kernel and one bias. */
  lemma DenseHeadKernelAndBias(outer: string, d: Dense)
    ensures var vs := [Var(VarName(outer, d.scope + "/dense/kernel:0"), [d.inputs, d.units]),
                       Var(VarName(outer, d.scope + "/dense/bias:0"), [d.units])];
      |NamesEndingWith(vs, KernelSuffix)| == 1 && |NamesEndingWith(vs, BiasSuffix)| == 1
  {
    var kernel, bias := "/dense/kernel:0", "/dense/bias:0";
    TailDecides(outer, d.scope, kernel, KernelSuffix);
    TailDecides(outer, d.scope, kernel, BiasSuffix);
    TailDecides(outer, d.scope, bias, KernelSuffix);
    TailDecides(outer, d.scope, bias, BiasSuffix);
    assert kernel[|kernel| - 3] == 'l' && bias[|bias| - 3] == 's';
    assert kernel[|kernel| - |KernelSuffix|..] == KernelSuffix;
    assert bias[|bias| - |BiasSuffix|..] == BiasSuffix;
    assert !IsSuffix(KernelSuffix, bias) && !IsSuffix(BiasSuffix, kernel);
    var vs := [Var(VarName(outer, d.scope + "/dense/kernel:0"), [d.inputs, d.units]),
               Var(VarName(outer, d.scope + "/dense/bias:0"), [d.units])];
    assert vs[1..][1..] == [];
  }

  lemma {:induction false} DenseKernelsAndBiases(outer: string, layers: seq<Dense>, norm: bool)
    ensures |NamesEndingWith(DenseVars(outer, layers, norm), KernelSuffix)| == |layers|
    ensures |NamesEndingWith(DenseVars(outer, layers, norm), BiasSuffix)| == |layers|
    decreases |layers|
  {
    if |layers| > 0 {
      var d := layers[0];
      var head := [Var(VarName(outer, d.scope + "/dense/kernel:0"), [d.inputs, d.units]),
                   Var(VarName(outer, d.scope + "/dense/bias:0"), [d.units])];
      var normVars := if norm then
          [Var(VarName(outer, d.scope + "/LayerNorm/beta:0"), [d.units]),
           Var(VarName(outer, d.scope + "/LayerNorm/gamma:0"), [d.units])]
        else [];
      var rest := DenseVars(outer, layers[1..], norm);
      assert DenseVars(outer, layers, norm) == head + normVars + rest;
      DenseKernelsAndBiases(outer, layers[1..], norm);
      DenseHeadKernelAndBias(outer, d);
      if norm {
        NoKernelOrBiasInNorm(outer, d.scope, d.units);
      }
      NamesEndingWithAppend(head + normVars, rest, KernelSuffix);
      NamesEndingWithAppend(head + normVars, rest, BiasSuffix);
      NamesEndingWithAppend(head, normVars, KernelSuffix);
      NamesEndingWithAppend(head, normVars, BiasSuffix);
    }
  }

  /** On the policy's own variables, a regulariser adds one penalty per dense
      layer (every hidden layer and every action output) and none for layer
      norm. */
  lemma PolicyPenaltyCount(p: DeepReactivePolicy, net: Network, outer: string)
    requires |net.inputScopes| == |net.inputWidths|
    ensures |NamesEndingWith(PolicyVariables(p, net, outer), KernelSuffix)| == |net.hiddenLayers| + |net.outputLayers|
    ensures |NamesEndingWith(PolicyVariables(p, net, outer), BiasSuffix)| == |net.hiddenLayers| + |net.outputLayers|
  {
    var input := if p.inputLayerNorm then InputNormVars(outer, net.inputScopes, net.inputWidths) else [];
    var hidden := DenseVars(outer, net.hiddenLayers, p.hiddenLayerNorm);
    var output := DenseVars(outer, net.outputLayers, false);
    InputNormHasNoKernelOrBias(outer, net.inputScopes, net.inputWidths);
    DenseKernelsAndBiases(outer, net.hiddenLayers, p.hiddenLayerNorm);
    DenseKernelsAndBiases(outer, net.outputLayers, false);
    NamesEndingWithAppend(input + hidden, output, KernelSuffix);
    NamesEndingWithAppend(input + hidden, output, BiasSuffix);
    NamesEndingWithAppend(input, hidden, KernelSuffix);
    NamesEndingWithAppend(input, hidden, BiasSuffix);
  }
}
