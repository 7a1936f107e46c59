/** The layer structure `DeepReactivePolicy.__call__` builds
    (tfmdp/train/policy.py, `_state_inputs` through `_action_outputs`), at the
    level of widths and shapes, together with the trainable variables it creates
    and the `size` property that counts them. Tensor values are not modelled. */
module PolicyNetwork {
  import opened Wrappers
  import opened Text
  import opened Tensors
  import opened Policy
  import Choices

  /** Why building the layers fails. */
  datatype ShapeError =
    | NoStateFluents                 // `state[0]` of an empty state: IndexError
    | ScalarState                    // `state[0].shape[0]` of a rank-0 tensor
    | NotReshapable(index: nat)      // `tf.reshape(fluent, [batch, -1])` impossible
    | NothingToConcatenate           // `tf.concat` of an empty list of inputs
    | MissingBound(fluent: string)   // `bounds[fluent_name]`: KeyError

  /** A fully connected layer made by `tf.layers.dense`: its variable scope below
      `policy/`, its input width and its number of units. */
  datatype Dense = Dense(scope: string, inputs: nat, units: nat)

  /** What one call of the policy builds: the batch size, the scope and flattened
      width of each state fluent fed to the input layer, the hidden layers, one
      output layer per action fluent, and the shape each action is reshaped to. */
  datatype Network = Network(
    batch: nat,
    inputScopes: seq<string>,
    inputWidths: seq<nat>,
    hiddenLayers: seq<Dense>,
    outputLayers: seq<Dense>,
    actionShapes: seq<seq<nat>>)

  function Min(a: nat, b: nat): nat {
    if a <= b then a else b
  }

  function Sum(xs: seq<nat>): nat
    decreases |xs|
  {
    if |xs| == 0 then 0 else xs[0] + Sum(xs[1..])
  }

  /** A tensor of `n` elements can be reshaped to `[batch, -1]`. */
  predicate Reshapable(n: nat, batch: nat) {
    batch > 0 && n % batch == 0
  }

  /** `int(state[0].shape[0])`: the batch size is read off the first state tensor. */
  function BatchSize(state: seq<seq<nat>>): Result<nat, ShapeError> {
    if |state| == 0 then Err(NoStateFluents)
    else if |state[0]| == 0 then Err(ScalarState)
    else Ok(state[0][0])
  }

  /** `_state_inputs`: every state tensor (given by its full shape) flattened to
      `[batch, -1]`, from index `from` on; the first tensor that cannot be is reported. */
  function FlatWidths(state: seq<seq<nat>>, batch: nat, from: nat): (r: Result<seq<nat>, ShapeError>)
    requires from <= |state|
    decreases |state| - from
    ensures r.Ok? ==> |r.value| == |state| - from
    ensures r.Ok? ==> forall i :: 0 <= i < |r.value| ==> batch * r.value[i] == Product(state[from + i])
    ensures r.Ok? <==> forall i :: from <= i < |state| ==> Reshapable(Product(state[i]), batch)
    ensures r.Err? ==> exists k :: from <= k < |state| && r.error == NotReshapable(k)
                                   && !Reshapable(Product(state[k]), batch)
  {
    if from == |state| then Ok([])
    else if !Reshapable(Product(state[from]), batch) then Err(NotReshapable(from))
    else
      var rest :- FlatWidths(state, batch, from + 1);
      Ok([Product(state[from]) / batch] + rest)
  }

  /** The tensor `FlatWidths` reports is the first one from `from` on that
      cannot be flattened. */
  lemma {:induction false} FlatWidthsFirst(state: seq<seq<nat>>, batch: nat, from: nat, k: nat)
    requires from <= k < |state| && !Reshapable(Product(state[k]), batch)
    requires forall i :: from <= i < k ==> Reshapable(Product(state[i]), batch)
    ensures FlatWidths(state, batch, from) == Err(NotReshapable(k))
    decreases k - from
  {
    if from < k {
      FlatWidthsFirst(state, batch, from + 1, k);
    }
  }

  lemma FirstUnflattenable(state: seq<seq<nat>>, batch: nat)
    ensures forall k :: (0 <= k < |state| && !Reshapable(Product(state[k]), batch)
      && forall i :: 0 <= i < k ==> Reshapable(Product(state[i]), batch)) ==> FlatWidths(state, batch, 0) == Err(NotReshapable(k))
  {
    forall k | 0 <= k < |state| && !Reshapable(Product(state[k]), batch)
                 && forall i :: 0 <= i < k ==> Reshapable(Product(state[i]), batch)
    {
      FlatWidthsFirst(state, batch, 0, k);
    }
  }

  /** `_hidden_layers`: one dense layer per entry of `layers`, scoped
      `hidden1`, `hidden2`, ... (numbering continues from `index`), each fed by
      the output of the one before, which the activation makes `factor` times
      as wide as its units (`Choices.WidthFactor`). */
  function HiddenLayers(width: nat, layers: seq<nat>, index: nat, factor: nat): (r: seq<Dense>)
    decreases |layers|
    ensures |r| == |layers|
    ensures forall i :: 0 <= i < |r| ==> r[i].units == layers[i]
    ensures forall i :: 0 <= i < |r| ==> r[i].scope == "hidden" + NatToString(index + i + 1)
    ensures forall i :: 0 < i < |r| ==> r[i].inputs == factor * layers[i - 1]
    ensures 0 < |r| ==> r[0].inputs == width
  {
    if |layers| == 0 then []
    else [Dense("hidden" + NatToString(index + 1), width, layers[0])]
         + HiddenLayers(factor * layers[0], layers[1..], index + 1, factor)
  }

  function Units(ds: seq<Dense>): (r: seq<nat>)
    decreases |ds|
    ensures |r| == |ds| && forall i :: 0 <= i < |ds| ==> r[i] == ds[i].units
  {
    if |ds| == 0 then [] else [ds[0].units] + Units(ds[1..])
  }

  /** The output width of each layer, `factor` times its units. */
  function Widths(ds: seq<Dense>, factor: nat): (r: seq<nat>)
    decreases |ds|
    ensures |r| == |ds| && forall i :: 0 <= i < |ds| ==> r[i] == factor * ds[i].units
  {
    if |ds| == 0 then [] else [factor * ds[0].units] + Widths(ds[1..], factor)
  }

  /** `_output_layer`: one linear dense layer per action fluent, scoped
      `output/<fluent>` with `/` replaced by `-`, sized to the fluent's element count. */
  function OutputLayers(names: seq<string>, sizes: seq<seq<nat>>, width: nat): (r: seq<Dense>)
    requires |names| == |sizes|
    decreases |names|
    ensures |r| == |names|
    ensures forall j :: 0 <= j < |r| ==>
      r[j] == Dense("output/" + Replace(names[j], '/', '-'), width, Product(sizes[j]))
  {
    if |names| == 0 then []
    else [Dense("output/" + Replace(names[0], '/', '-'), width, Product(sizes[0]))]
         + OutputLayers(names[1..], sizes[1..], width)
  }

  /** The first action fluent with no entry in the bound constraints. */
  function FirstMissing(names: seq<string>, keys: set<string>): (r: Option<string>)
    decreases |names|
    ensures r.None? <==> forall j :: 0 <= j < |names| ==> names[j] in keys
    ensures r.Some? ==> r.value in names && r.value !in keys
    // the fluent reported is the first one, in order, without bound constraints
    ensures forall j :: (0 <= j < |names| && names[j] !in keys && forall k :: 0 <= k < j ==> names[k] in keys) ==>
      r == Some(names[j])
  {
    if |names| == 0 then None
    else if names[0] !in keys then Some(names[0])
    else FirstMissing(names[1..], keys)
  }

  function ScopeNames(names: seq<string>): (r: seq<string>)
    decreases |names|
    ensures |r| == |names| && forall i :: 0 <= i < |r| ==> r[i] == Replace(names[i], '/', '-')
  {
    if |names| == 0 then [] else [Replace(names[0], '/', '-')] + ScopeNames(names[1..])
  }

  /** `[batch] + list(fluent_size)`: the shape each action output is reshaped to. */
  function ActionShapes(batch: nat, sizes: seq<seq<nat>>): (r: seq<seq<nat>>)
    decreases |sizes|
    ensures |r| == |sizes| && forall j :: 0 <= j < |r| ==> r[j] == [batch] + sizes[j]
  {
    if |sizes| == 0 then [] else [[batch] + sizes[0]] + ActionShapes(batch, sizes[1..])
  }

  /** The input layer: the batch size, and the scope and flattened width of
      each state fluent it concatenates. */
  datatype Inputs = Inputs(batch: nat, scopes: seq<string>, widths: seq<nat>)

  /** `_state_inputs` then `_input_layer`: `zip` pairs the compiler's state-fluent
      names with the flattened tensors and stops at the shorter list. */
  function InputLayer(p: DeepReactivePolicy, state: seq<seq<nat>>): (r: Result<Inputs, ShapeError>)
    ensures |state| == 0 ==> r == Err(NoStateFluents)
    ensures 0 < |state| && |state[0]| == 0 ==> r == Err(ScalarState)
    // succeeds exactly when there is a batch size, every state tensor can be
    // flattened by it, and the compiler names at least one state fluent
    ensures r.Ok? <==> && 0 < |state| && 0 < |state[0]| && 0 < |p.compiler.stateFluents|
                       && forall i :: 0 <= i < |state| ==> Reshapable(Product(state[i]), state[0][0])
    ensures r.Err? && r.error.NotReshapable? ==>
      r.error.index < |state| && !Reshapable(Product(state[r.error.index]), state[0][0])
    ensures r.Err? && r.error.NothingToConcatenate? ==> |p.compiler.stateFluents| == 0
    // the first state tensor, in order, that cannot be flattened is the one reported
    ensures 0 < |state| && 0 < |state[0]| ==> forall k :: (0 <= k < |state|
      && !Reshapable(Product(state[k]), state[0][0])
      && forall i :: 0 <= i < k ==> Reshapable(Product(state[i]), state[0][0])) ==> r == Err(NotReshapable(k))
    // with every tensor flattened, no state-fluent names leaves nothing to concatenate
    ensures (&& 0 < |state| && 0 < |state[0]| && |p.compiler.stateFluents| == 0
             && forall i :: 0 <= i < |state| ==> Reshapable(Product(state[i]), state[0][0]))
      ==> r == Err(NothingToConcatenate)
    ensures r.Ok? ==> 0 < |state| && 0 < |state[0]| && r.value.batch == state[0][0]
    ensures r.Ok? ==> var n := |r.value.widths|;
      && n == Min(|p.compiler.stateFluents|, |state|) && 0 < n
      && |r.value.scopes| == n
      && (forall i :: 0 <= i < n ==> r.value.batch * r.value.widths[i] == Product(state[i]))
      && (forall i :: 0 <= i < n ==> r.value.scopes[i] == Replace(p.compiler.stateFluents[i], '/', '-'))
  {
    var batch :- BatchSize(state);
    FirstUnflattenable(state, batch);
    var flat :- FlatWidths(state, batch, 0);
    var n := Min(|p.compiler.stateFluents|, |flat|);
    if n == 0 then Err(NothingToConcatenate)
    else Ok(Inputs(batch, ScopeNames(p.compiler.stateFluents[..n]), flat[..n]))
  }

  /** The `self.hidden` tuple as widths: the input layer, then the output of
      every hidden layer after the policy's activation. */
  function HiddenWidths(p: DeepReactivePolicy, net: Network): seq<nat> {
    [Sum(net.inputWidths)] + Widths(net.hiddenLayers, Choices.WidthFactor(p.activation))
  }

  /** The hidden tuple is the input layer followed by one dense layer per entry
      of `layers`, with `layers[i]` units, fed by the width before it; its
      output is `layers[i]` wide, or twice that under `crelu`. */
  predicate HiddenChained(p: DeepReactivePolicy, net: Network) {
    var w := HiddenWidths(p, net);
    && |net.hiddenLayers| == |p.layers|
    && (forall i :: 0 <= i < |p.layers| ==>
          net.hiddenLayers[i].units == p.layers[i] && w[i + 1] == Choices.WidthFactor(p.activation) * p.layers[i])
    && (forall i :: 0 <= i < |p.layers| ==> net.hiddenLayers[i].inputs == w[i])
  }

  /** One output layer per action fluent taking part, in compiler order: fed by
      the last hidden width, sized to the fluent's shape, scoped by its name,
      reshaped to `[batch] + shape`, and with bound constraints present. */
  predicate OutputsFor(p: DeepReactivePolicy, net: Network, boundKeys: set<string>) {
    var m := Min(|p.compiler.actionFluents|, |p.compiler.actionSizes|);
    var w := HiddenWidths(p, net);
    && |net.outputLayers| == m && |net.actionShapes| == m
    && (forall j :: 0 <= j < m ==>
          && net.outputLayers[j].inputs == w[|w| - 1]
          && net.outputLayers[j].units == Product(p.compiler.actionSizes[j])
          && net.outputLayers[j].scope == "output/" + Replace(p.compiler.actionFluents[j], '/', '-')
          && net.actionShapes[j] == [net.batch] + p.compiler.actionSizes[j]
          && p.compiler.actionFluents[j] in boundKeys)
  }

  /** The network built on top of a given input layer, once every action
      fluent taking part is known to have bound constraints. */
  function Assemble(p: DeepReactivePolicy, inputs: Inputs, boundKeys: set<string>): (net: Network)
    requires |inputs.scopes| == |inputs.widths|
    requires forall j :: 0 <= j < Min(|p.compiler.actionFluents|, |p.compiler.actionSizes|) ==>
      p.compiler.actionFluents[j] in boundKeys
    ensures net.batch == inputs.batch && net.inputScopes == inputs.scopes && net.inputWidths == inputs.widths
    ensures HiddenChained(p, net) && OutputsFor(p, net, boundKeys)
  {
    var hidden := HiddenLayers(Sum(inputs.widths), p.layers, 0, Choices.WidthFactor(p.activation));
    var widths := [Sum(inputs.widths)] + Widths(hidden, Choices.WidthFactor(p.activation));
    var m := Min(|p.compiler.actionFluents|, |p.compiler.actionSizes|);
    var sizes := p.compiler.actionSizes[..m];
    var outputs := OutputLayers(p.compiler.actionFluents[..m], sizes, widths[|widths| - 1]);
    var net := Network(inputs.batch, inputs.scopes, inputs.widths, hidden, outputs, ActionShapes(inputs.batch, sizes));
    ChainedHidden(p, net);
    AssembledOutputs(p, net, boundKeys);
    net
  }

  lemma ChainedHidden(p: DeepReactivePolicy, net: Network)
    requires net.hiddenLayers == HiddenLayers(Sum(net.inputWidths), p.layers, 0, Choices.WidthFactor(p.activation))
    ensures HiddenChained(p, net)
  {
    var w := HiddenWidths(p, net);
    var f := Choices.WidthFactor(p.activation);
    forall i | 0 <= i < |p.layers|
      ensures w[i + 1] == f * p.layers[i]
      ensures net.hiddenLayers[i].inputs == w[i]
    {
      assert w[i + 1] == Widths(net.hiddenLayers, f)[i];
      if 0 < i {
        assert w[i] == Widths(net.hiddenLayers, f)[i - 1];
      }
    }
  }

  lemma AssembledOutputs(p: DeepReactivePolicy, net: Network, boundKeys: set<string>)
    requires var m := Min(|p.compiler.actionFluents|, |p.compiler.actionSizes|);
      && net.outputLayers == OutputLayers(p.compiler.actionFluents[..m], p.compiler.actionSizes[..m],
                                          HiddenWidths(p, net)[|HiddenWidths(p, net)| - 1])
      && net.actionShapes == ActionShapes(net.batch, p.compiler.actionSizes[..m])
      && forall j :: 0 <= j < m ==> p.compiler.actionFluents[j] in boundKeys
    ensures OutputsFor(p, net, boundKeys)
  {
  }

  /** One call of the policy on state tensors of the given full shapes, with
      bound constraints given for the fluents in `boundKeys`. `zip` stops at the
      shorter list, so only the first `min(...)` fluents of each pairing take part. */
  function Evaluate(p: DeepReactivePolicy, state: seq<seq<nat>>, boundKeys: set<string>): (r: Result<Network, ShapeError>)
    ensures |state| == 0 ==> r == Err(NoStateFluents)
    // succeeds exactly when the input layer can be built and every action
    // fluent taking part has bound constraints; an input-layer error is passed on
    ensures r.Ok? <==> && InputLayer(p, state).Ok?
                       && forall j :: 0 <= j < Min(|p.compiler.actionFluents|, |p.compiler.actionSizes|) ==>
                            p.compiler.actionFluents[j] in boundKeys
    ensures InputLayer(p, state).Err? ==> r == Err(InputLayer(p, state).error)
    ensures r.Ok? ==> 0 < |state| && 0 < |state[0]| && r.value.batch == state[0][0]
    // input layer: as `InputLayer` describes, the state fluents in compiler order, each flattened
    ensures r.Ok? ==> InputLayer(p, state) == Ok(Inputs(r.value.batch, r.value.inputScopes, r.value.inputWidths))
    // hidden tuple: the input layer, then one entry per configured layer;
    // outputs: one per action fluent, in compiler order, reshaped to [batch] + shape
    ensures r.Ok? ==> HiddenChained(p, r.value) && OutputsFor(p, r.value, boundKeys)
    ensures r.Err? && r.error.MissingBound? ==>
      r.error.fluent in p.compiler.actionFluents && r.error.fluent !in boundKeys
    // `bounds[fluent]` raises for the first action fluent taking part without bound constraints
    ensures InputLayer(p, state).Ok? ==>
      forall j :: (0 <= j < Min(|p.compiler.actionFluents|, |p.compiler.actionSizes|)
        && p.compiler.actionFluents[j] !in boundKeys
        && forall k :: 0 <= k < j ==> p.compiler.actionFluents[k] in boundKeys) ==>
        r == Err(MissingBound(p.compiler.actionFluents[j]))
  {
    var inputs :- InputLayer(p, state);
    var m := Min(|p.compiler.actionFluents|, |p.compiler.actionSizes|);
    var names := p.compiler.actionFluents[..m];
    assert forall j :: 0 <= j < m ==> names[j] == p.compiler.actionFluents[j];
    match FirstMissing(names, boundKeys)
    case Some(f) => Err(MissingBound(f))
    case None => Ok(Assemble(p, inputs, boundKeys))
  }

  // ---- trainable variables and the `size` property ----

  /** The full name of a variable created under the policy's `policy` variable
      scope, itself opened inside the caller's variable scope `outer` ("" at top level). */
  function VarName(outer: string, path: string): string {
    outer + "policy/" + path
  }

  /** The `beta` and `gamma` of `layer_norm` over each flattened state fluent. */
  function InputNormVars(outer: string, scopes: seq<string>, widths: seq<nat>): (r: seq<Var>)
    requires |scopes| == |widths|
    decreases |scopes|
    ensures AllScoped(r, outer)
  {
    if |scopes| == 0 then []
    else
      [Var(VarName(outer, "input/" + scopes[0] + "/LayerNorm/beta:0"), [widths[0]]),
       Var(VarName(outer, "input/" + scopes[0] + "/LayerNorm/gamma:0"), [widths[0]])]
      + InputNormVars(outer, scopes[1..], widths[1..])
  }

  /** The kernel and bias of each dense layer, then, when `norm` holds, the
      `beta` and `gamma` of the `layer_norm` that follows it. */
  function DenseVars(outer: string, layers: seq<Dense>, norm: bool): (r: seq<Var>)
    decreases |layers|
    ensures AllScoped(r, outer)
  {
    if |layers| == 0 then []
    else
      var d := layers[0];
      [Var(VarName(outer, d.scope + "/dense/kernel:0"), [d.inputs, d.units]),
       Var(VarName(outer, d.scope + "/dense/bias:0"), [d.units])]
      + (if norm then
           [Var(VarName(outer, d.scope + "/LayerNorm/beta:0"), [d.units]),
            Var(VarName(outer, d.scope + "/LayerNorm/gamma:0"), [d.units])]
         else [])
      + DenseVars(outer, layers[1..], norm)
  }

  /** The trainable variables one call of the policy creates (later calls reuse them). */
  function PolicyVariables(p: DeepReactivePolicy, net: Network, outer: string): seq<Var>
    requires |net.inputScopes| == |net.inputWidths|
  {
    (if p.inputLayerNorm then InputNormVars(outer, net.inputScopes, net.inputWidths) else [])
    + DenseVars(outer, net.hiddenLayers, p.hiddenLayerNorm)
    + DenseVars(outer, net.outputLayers, false)
  }

  /** `tf.trainable_variables(r'.*\/policy')` keeps the variables whose name
      contains `/policy` (`re.match` with a leading `.*` and no end anchor). */
  predicate InPolicyScope(name: string) {
    Contains(name, "/policy")
  }

  /** The `size` property: the element count summed over the kept variables. */
  function Size(vars: seq<Var>): nat
    decreases |vars|
  {
    if |vars| == 0 then 0
    else (if InPolicyScope(vars[0].name) then Product(vars[0].shape) else 0) + Size(vars[1..])
  }

  /** The parameters of a chain of dense layers with the given units, the first
      fed `width` wide and each later one fed `factor` times the units before it:
      a `width * units` kernel plus `k` per-unit vectors per layer. */
  function ChainParams(width: nat, units: seq<nat>, factor: nat, k: nat): nat
    decreases |units|
  {
    if |units| == 0 then 0
    else width * units[0] + k * units[0] + ChainParams(factor * units[0], units[1..], factor, k)
  }

  /** The parameter count of a network, in closed form over its widths. */
  function ParamCount(p: DeepReactivePolicy, net: Network): nat {
    var w := HiddenWidths(p, net);
    (if p.inputLayerNorm then 2 * Sum(net.inputWidths) else 0)
    + ChainParams(Sum(net.inputWidths), p.layers, Choices.WidthFactor(p.activation), if p.hiddenLayerNorm then 3 else 1)
    + (w[|w| - 1] + 1) * Sum(Units(net.outputLayers))
  }

  lemma ScopedNameKept(outer: string, name: string)
    requires IsSuffix("/", outer)
    requires IsPrefix(outer + "policy/", name)
    ensures InPolicyScope(name)
  {
    var i := |outer| - 1;
    assert name[i..i + 7] == (outer + "policy/")[i..i + 7] == "/policy";
    assert OccursAt(name, i, "/policy");
  }

  lemma {:induction false} SizeOfKept(vars: seq<Var>)
    requires forall i :: 0 <= i < |vars| ==> InPolicyScope(vars[i].name)
    ensures Size(vars) == TotalSize(vars)
    decreases |vars|
  {
    if |vars| > 0 {
      SizeOfKept(vars[1..]);
    }
  }

  lemma {:induction false} InputNormVarsSize(outer: string, scopes: seq<string>, widths: seq<nat>)
    requires |scopes| == |widths|
    ensures TotalSize(InputNormVars(outer, scopes, widths)) == 2 * Sum(widths)
    decreases |scopes|
  {
    if |scopes| > 0 {
      var head := [Var(VarName(outer, "input/" + scopes[0] + "/LayerNorm/beta:0"), [widths[0]]),
                   Var(VarName(outer, "input/" + scopes[0] + "/LayerNorm/gamma:0"), [widths[0]])];
      InputNormVarsSize(outer, scopes[1..], widths[1..]);
      TotalSizeAppend(head, InputNormVars(outer, scopes[1..], widths[1..]));
      ProductOfSingle(widths[0]);
      assert head[1..] == [head[1]];
      assert head[1..][1..] == [];
    }
  }

  /** The kernel and bias of one dense layer hold `inputs * units + units` elements. */
  lemma DenseHeadSize(outer: string, d: Dense)
    ensures TotalSize([Var(VarName(outer, d.scope + "/dense/kernel:0"), [d.inputs, d.units]),
                       Var(VarName(outer, d.scope + "/dense/bias:0"), [d.units])])
            == d.inputs * d.units + d.units
  {
    var pair := [Var(VarName(outer, d.scope + "/dense/kernel:0"), [d.inputs, d.units]),
                 Var(VarName(outer, d.scope + "/dense/bias:0"), [d.units])];
    ProductOfPair(d.inputs, d.units);
    ProductOfSingle(d.units);
    assert pair[1..] == [pair[1]];
    assert pair[1..][1..] == [];
    assert TotalSize(pair[1..]) == Product([d.units]);
    assert TotalSize(pair) == Product([d.inputs, d.units]) + TotalSize(pair[1..]);
  }

  lemma {:induction false} DenseVarsSize(outer: string, layers: seq<Dense>, norm: bool, width: nat, factor: nat)
    requires 0 < |layers| ==> layers[0].inputs == width
    requires forall i :: 0 < i < |layers| ==> layers[i].inputs == factor * layers[i - 1].units
    ensures TotalSize(DenseVars(outer, layers, norm)) == ChainParams(width, Units(layers), factor, if norm then 3 else 1)
    decreases |layers|
  {
    if |layers| > 0 {
      var d := layers[0];
      var pair := [Var(VarName(outer, d.scope + "/dense/kernel:0"), [d.inputs, d.units]),
                   Var(VarName(outer, d.scope + "/dense/bias:0"), [d.units])];
      var normVars := if norm then
                        [Var(VarName(outer, d.scope + "/LayerNorm/beta:0"), [d.units]),
                         Var(VarName(outer, d.scope + "/LayerNorm/gamma:0"), [d.units])]
                      else [];
      var rest := DenseVars(outer, layers[1..], norm);
      assert DenseVars(outer, layers, norm) == pair + normVars + rest;
      DenseVarsSize(outer, layers[1..], norm, factor * d.units, factor);
      assert Units(layers)[1..] == Units(layers[1..]);
      TotalSizeAppend(pair + normVars, rest);
      TotalSizeAppend(pair, normVars);
      DenseHeadSize(outer, d);
      if norm {
        ProductOfSingle(d.units);
        assert normVars[1..] == [normVars[1]];
        assert normVars[1..][1..] == [];
        assert TotalSize(normVars[1..]) == d.units;
        assert TotalSize(normVars) == d.units + TotalSize(normVars[1..]);
      }
    }
  }

  lemma Distribute(w: nat, u: nat, s: nat)
    ensures w * u + u + (w + 1) * s == (w + 1) * (u + s)
  {
  }

  lemma {:induction false} OutputVarsSize(outer: string, layers: seq<Dense>, width: nat)
    requires forall j :: 0 <= j < |layers| ==> layers[j].inputs == width
    ensures TotalSize(DenseVars(outer, layers, false)) == (width + 1) * Sum(Units(layers))
    decreases |layers|
  {
    if |layers| > 0 {
      var d := layers[0];
      var pair := [Var(VarName(outer, d.scope + "/dense/kernel:0"), [d.inputs, d.units]),
                   Var(VarName(outer, d.scope + "/dense/bias:0"), [d.units])];
      var rest := DenseVars(outer, layers[1..], false);
      assert DenseVars(outer, layers, false) == pair + rest;
      OutputVarsSize(outer, layers[1..], width);
      TotalSizeAppend(pair, rest);
      DenseHeadSize(outer, d);
      assert Units(layers)[1..] == Units(layers[1..]);
      Distribute(width, d.units, Sum(Units(layers[1..])));
    }
  }

  predicate AllScoped(vars: seq<Var>, outer: string) {
    forall i :: 0 <= i < |vars| ==> IsPrefix(outer + "policy/", vars[i].name)
  }

  lemma AllScopedAppend(a: seq<Var>, b: seq<Var>, outer: string)
    requires AllScoped(a, outer) && AllScoped(b, outer)
    ensures AllScoped(a + b, outer)
  {
    forall i | 0 <= i < |a + b|
      ensures IsPrefix(outer + "policy/", (a + b)[i].name)
    {
      if i >= |a| {
        assert (a + b)[i] == b[i - |a|];
      }
    }
  }

  /** The parameter count of a network whose layers are chained as `Evaluate` builds them. */
  lemma SizeOfChainedNetwork(p: DeepReactivePolicy, net: Network, outer: string)
    requires |net.inputScopes| == |net.inputWidths|
    requires HiddenChained(p, net)
    requires forall j :: 0 <= j < |net.outputLayers| ==>
      net.outputLayers[j].inputs == HiddenWidths(p, net)[|HiddenWidths(p, net)| - 1]
    requires IsSuffix("/", outer)
    ensures Size(PolicyVariables(p, net, outer)) == ParamCount(p, net)
  {
    PolicyVariablesKept(p, net, outer);
    PolicyVariablesTotal(p, net, outer);
  }

  /** All of the policy's variables lie under its scope, so `size` counts them all. */
  lemma PolicyVariablesKept(p: DeepReactivePolicy, net: Network, outer: string)
    requires |net.inputScopes| == |net.inputWidths|
    requires IsSuffix("/", outer)
    ensures Size(PolicyVariables(p, net, outer)) == TotalSize(PolicyVariables(p, net, outer))
  {
    var inputs := if p.inputLayerNorm then InputNormVars(outer, net.inputScopes, net.inputWidths) else [];
    var hidden := DenseVars(outer, net.hiddenLayers, p.hiddenLayerNorm);
    var outputs := DenseVars(outer, net.outputLayers, false);
    AllScopedAppend(inputs, hidden, outer);
    AllScopedAppend(inputs + hidden, outputs, outer);
    AllKept(PolicyVariables(p, net, outer), outer);
  }

  /** The element counts of the policy's variables add up to `ParamCount`. */
  lemma PolicyVariablesTotal(p: DeepReactivePolicy, net: Network, outer: string)
    requires |net.inputScopes| == |net.inputWidths|
    requires HiddenChained(p, net)
    requires forall j :: 0 <= j < |net.outputLayers| ==>
      net.outputLayers[j].inputs == HiddenWidths(p, net)[|HiddenWidths(p, net)| - 1]
    ensures TotalSize(PolicyVariables(p, net, outer)) == ParamCount(p, net)
  {
    var w := HiddenWidths(p, net);
    var inputs := if p.inputLayerNorm then InputNormVars(outer, net.inputScopes, net.inputWidths) else [];
    var hidden := DenseVars(outer, net.hiddenLayers, p.hiddenLayerNorm);
    var outputs := DenseVars(outer, net.outputLayers, false);
    assert PolicyVariables(p, net, outer) == inputs + hidden + outputs;
    TotalSizeAppend(inputs + hidden, outputs);
    TotalSizeAppend(inputs, hidden);
    var a, b, c := TotalSize(inputs), TotalSize(hidden), TotalSize(outputs);
    assert a == if p.inputLayerNorm then 2 * Sum(net.inputWidths) else 0 by {
      if p.inputLayerNorm {
        InputNormVarsSize(outer, net.inputScopes, net.inputWidths);
      }
    }
    HiddenVarsSize(p, net, outer);
    OutputVarsSize(outer, net.outputLayers, w[|w| - 1]);
    assert c == (w[|w| - 1] + 1) * Sum(Units(net.outputLayers));
    assert ParamCount(p, net) == a + b + c;
  }

  /** The element counts of the hidden layers' variables add up to their chain's parameters. */
  lemma HiddenVarsSize(p: DeepReactivePolicy, net: Network, outer: string)
    requires HiddenChained(p, net)
    ensures TotalSize(DenseVars(outer, net.hiddenLayers, p.hiddenLayerNorm))
            == ChainParams(Sum(net.inputWidths), p.layers, Choices.WidthFactor(p.activation), if p.hiddenLayerNorm then 3 else 1)
  {
    var w := HiddenWidths(p, net);
    var f := Choices.WidthFactor(p.activation);
    forall i | 0 < i < |net.hiddenLayers|
      ensures net.hiddenLayers[i].inputs == f * net.hiddenLayers[i - 1].units
    {
      assert w[i] == Widths(net.hiddenLayers, f)[i - 1];
    }
    DenseVarsSize(outer, net.hiddenLayers, p.hiddenLayerNorm, w[0], f);
    assert Units(net.hiddenLayers) == p.layers;
  }

  /** Every variable under the policy's scope counts towards `size`. */
  lemma AllKept(vars: seq<Var>, outer: string)
    requires IsSuffix("/", outer) && AllScoped(vars, outer)
    ensures Size(vars) == TotalSize(vars)
  {
    forall i | 0 <= i < |vars|
      ensures InPolicyScope(vars[i].name)
    {
      ScopedNameKept(outer, vars[i].name);
    }
    SizeOfKept(vars);
  }

  /** When the policy's scope is nested in another variable scope, `size` counts
      exactly the parameters the policy created: the closed-form `ParamCount`. */
  lemma SizeIsParamCount(p: DeepReactivePolicy, state: seq<seq<nat>>, boundKeys: set<string>, outer: string)
    requires Evaluate(p, state, boundKeys).Ok?
    requires IsSuffix("/", outer)
    ensures var net := Evaluate(p, state, boundKeys).value;
      Size(PolicyVariables(p, net, outer)) == ParamCount(p, net)
  {
    var net := Evaluate(p, state, boundKeys).value;
    SizeOfChainedNetwork(p, net, outer);
  }

  /** A policy with one hidden layer of 4 units and no activation, called on one
      state fluent of shape `[1, 3]` with one bounded action fluent of shape
      `[2]`, inside the variable scope `drp/`: the call succeeds, and `size` is
      `3 * 4 + 4` for the hidden layer plus `(4 + 1) * 2` for the output layer. */
  lemma SmallPolicySize()
    ensures var p := DeepReactivePolicy(Compiler(["s/1"], ["a/1"], [[2]]), [4], None, false, false);
      var r := Evaluate(p, [[1, 3]], {"a/1"});
      && r.Ok?
      && Size(PolicyVariables(p, r.value, "drp/")) == 26
  {
    var p := DeepReactivePolicy(Compiler(["s/1"], ["a/1"], [[2]]), [4], None, false, false);
    assert "drp/"[3] == '/';
    OneLayerSize(p, [[1, 3]], {"a/1"}, "drp/");
  }

  /** The same policy under `crelu`: the hidden layer's output is 8 wide, so the
      output layer's kernel is `8 x 2` and `size` is `3 * 4 + 4` plus `(8 + 1) * 2`. */
  lemma SmallCreluPolicySize()
    ensures var p := DeepReactivePolicy(Compiler(["s/1"], ["a/1"], [[2]]), [4], Some(Choices.Crelu), false, false);
      var r := Evaluate(p, [[1, 3]], {"a/1"});
      && r.Ok?
      && r.value.outputLayers[0].inputs == 8
      && Size(PolicyVariables(p, r.value, "drp/")) == 34
  {
    var p := DeepReactivePolicy(Compiler(["s/1"], ["a/1"], [[2]]), [4], Some(Choices.Crelu), false, false);
    assert "drp/"[3] == '/';
    OneLayerSize(p, [[1, 3]], {"a/1"}, "drp/");
  }

  lemma OneLayerSize(p: DeepReactivePolicy, state: seq<seq<nat>>, boundKeys: set<string>, outer: string)
    requires p.layers == [4] && !p.inputLayerNorm && !p.hiddenLayerNorm
    requires state == [[1, 3]] && 0 < |p.compiler.stateFluents|
    requires p.compiler.actionSizes == [[2]] && |p.compiler.actionFluents| == 1
    requires p.compiler.actionFluents[0] in boundKeys
    requires IsSuffix("/", outer)
    ensures var r := Evaluate(p, state, boundKeys);
      && r.Ok?
      && r.value.outputLayers[0].inputs == 4 * Choices.WidthFactor(p.activation)
      && Size(PolicyVariables(p, r.value, outer)) == 16 + (4 * Choices.WidthFactor(p.activation) + 1) * 2
  {
    ProductOfPair(1, 3);
    ProductOfSingle(2);
    assert Reshapable(Product(state[0]), state[0][0]);
    assert InputLayer(p, state).Ok?;
    var r := Evaluate(p, state, boundKeys);
    SizeIsParamCount(p, state, boundKeys, outer);
    var net := r.value;
    assert net.inputWidths == [net.inputWidths[0]] && net.inputWidths[0] == 3;
    SmallParamCount(p, net);
  }

  lemma SmallParamCount(p: DeepReactivePolicy, net: Network)
    requires !p.inputLayerNorm && !p.hiddenLayerNorm && p.layers == [4]
    requires net.inputWidths == [3] && |net.hiddenLayers| == 1 && net.hiddenLayers[0].units == 4
    requires |net.outputLayers| == 1 && net.outputLayers[0].units == 2
    ensures HiddenWidths(p, net) == [3, 4 * Choices.WidthFactor(p.activation)]
    ensures ParamCount(p, net) == 16 + (4 * Choices.WidthFactor(p.activation) + 1) * 2
  {
    var f := Choices.WidthFactor(p.activation);
    assert Widths(net.hiddenLayers, f) == [f * 4];
    assert Sum(net.inputWidths) == 3 + Sum([]);
    assert HiddenWidths(p, net) == [3, f * 4];
    assert ChainParams(3, [4], f, 1) == 16 + ChainParams(f * 4, [], f, 1);
    assert Units(net.outputLayers) == [2];
    assert Sum([2]) == 2 + Sum([]);
  }
}
