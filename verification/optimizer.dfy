/** `PolicyOptimizer` (tfmdp/train/optimizer.py) as an object: what its
    constructor keeps, what `build` records, and what `run` does before, around
    and after the training loop of `TrainingLoop`. Python passes untyped values,
    so the constructor's `logdir` and `hooks` are `Arg`s: a value of whichever
    kind the caller happened to pass. The model it trains is abstract; the
    regularisers `R` are opaque callables. */
module Optimizer {
  import opened Wrappers
  import opened Text
  import opened Tensors
  import opened Policy
  import opened Choices
  import opened TrainingLoop
  import opened Regularization
  import Persistence

  /** A Python value passed where the constructor expects `logdir` or `hooks`. */
  datatype Arg<H> = NoneArg | Str(text: string) | HookSeq(hooks: seq<H>) | PolicyObj(policy: DeepReactivePolicy)

  /** What `build` leaves behind: the optimizer class and learning rate it
      instantiates, the regularisers it was given, and the terms the loss is
      the sum of. `batch_size` and `horizon` are accepted and not used. */
  datatype Built<R> = Built(
    optimizer: OptimizerKind,
    learningRate: real,
    kernelRegularizer: Option<R>,
    biasRegularizer: Option<R>,
    loss: seq<Term<R>>)

  /** The optimizer's fields: `_model` is left abstract, `_logdir`, `_hooks`,
      `_debug`; `built` is everything `build` sets, and `writers` the log
      directories of `_train_writer` and `_test_writer` once `run` made them. */
  datatype PolicyOptimizer<H, R> = PolicyOptimizer(
    logdir: Arg<H>,
    hooks: Arg<H>,
    debug: bool,
    built: Option<Built<R>>,
    writers: Option<(string, string)>)

  /** Why `run` stops. `TypeError`s: `self._logdir + '/train'` on a value that
      is not a string (line 66), iterating `_hooks` when it is not iterable
      (line 208). `AttributeError`s: `hook.setup` on a character of a string
      passed as `hooks` (line 209), `self._train_op` before `build` (line 94). */
  datatype RunError = LogdirNotString | HooksNotIterable | HookWithoutSetup(hook: char) | NotBuilt

  /** `__init__`: a `None` log directory becomes `'/tmp'`; nothing else is checked. */
  function New<H, R>(logdir: Arg<H>, hooks: Arg<H>, debug: bool): (o: PolicyOptimizer<H, R>)
    ensures logdir.NoneArg? ==> o.logdir == Str("/tmp")
    ensures !logdir.NoneArg? ==> o.logdir == logdir
    ensures o.hooks == hooks && o.debug == debug
    ensures o.built.None? && o.writers.None?
  {
    PolicyOptimizer(if logdir.NoneArg? then Str("/tmp") else logdir, hooks, debug, None, None)
  }

  /** `build(learning_rate, batch_size, horizon, optimizer, kernel_regularizer,
      bias_regularizer)` over a graph whose trainable variables are `vars`.
      Building again replaces what the last build recorded. */
  function Build<H, R>(o: PolicyOptimizer<H, R>, learningRate: real, batchSize: int, horizon: int,
                       optimizer: OptimizerKind, kernelRegularizer: Option<R>, biasRegularizer: Option<R>,
                       vars: seq<Var>): (r: PolicyOptimizer<H, R>)
    ensures r.logdir == o.logdir && r.hooks == o.hooks && r.debug == o.debug && r.writers == o.writers
    ensures r.built.Some? && r.built.value.optimizer == optimizer && r.built.value.learningRate == learningRate
    ensures r.built.value.kernelRegularizer == kernelRegularizer && r.built.value.biasRegularizer == biasRegularizer
    ensures var loss := r.built.value.loss;
      && |loss| == 1 + PenaltyCount(kernelRegularizer, vars, KernelSuffix) + PenaltyCount(biasRegularizer, vars, BiasSuffix)
      && loss[0] == BaseLoss
    // the loss is the base loss with the regularisers' penalties added, as
    // `_build_regularization_loss_graph` adds them over the graph's variables
    ensures r.built.value.loss == RegularizedLoss(vars, kernelRegularizer, biasRegularizer)
  {
    o.(built := Some(Built(optimizer, learningRate, kernelRegularizer, biasRegularizer,
                           RegularizedLoss(vars, kernelRegularizer, biasRegularizer))))
  }

  /** The loss `build` records: the base loss, then a penalty on every kernel
      in variable order, then one on every bias, each by its own regulariser,
      and a penalty on no variable the graph does not have. */
  lemma BuiltLoss<H, R>(o: PolicyOptimizer<H, R>, learningRate: real, batchSize: int, horizon: int,
                        optimizer: OptimizerKind, kernelRegularizer: Option<R>, biasRegularizer: Option<R>,
                        vars: seq<Var>)
    ensures var loss := Build(o, learningRate, batchSize, horizon, optimizer, kernelRegularizer, biasRegularizer, vars).built.value.loss;
      var k := PenaltyCount(kernelRegularizer, vars, KernelSuffix);
      && loss[0] == BaseLoss
      && AllPenalise(loss[1..1 + k], kernelRegularizer, KernelSuffix)
      && AllPenalise(loss[1 + k..], biasRegularizer, BiasSuffix)
      && (forall i :: 0 <= i < |vars| && kernelRegularizer.Some? && IsSuffix(KernelSuffix, vars[i].name) ==>
            Penalty(kernelRegularizer.value, vars[i].name) in loss)
      && (forall i :: 0 <= i < |vars| && biasRegularizer.Some? && IsSuffix(BiasSuffix, vars[i].name) ==>
            Penalty(biasRegularizer.value, vars[i].name) in loss)
      && (forall t :: t in loss && t.Penalty? ==> exists i :: 0 <= i < |vars| && vars[i].name == t.variable)
  {
    RegularizedLossOrder(vars, kernelRegularizer, biasRegularizer);
    RegularizedLossCovers(vars, kernelRegularizer, biasRegularizer);
  }

  /** What iterating `_hooks` in `_hooks_setup` yields: nothing for `None` or
      an empty string, the list for a list, and an error otherwise. */
  function Hooks<H>(hooks: Arg<H>): (r: Result<seq<H>, RunError>)
    ensures hooks.NoneArg? ==> r == Ok([])
    ensures hooks.HookSeq? ==> r == Ok(hooks.hooks)
    ensures hooks.Str? ==> (r.Ok? <==> hooks.text == "")
    ensures hooks.Str? && hooks.text != "" ==> r == Err(HookWithoutSetup(hooks.text[0]))
    ensures hooks.PolicyObj? ==> r == Err(HooksNotIterable)
  {
    match hooks
    case NoneArg => Ok([])
    case HookSeq(hs) => Ok(hs)
    case Str(text) => if text == "" then Ok([]) else Err(HookWithoutSetup(text[0]))
    case PolicyObj(_) => Err(HooksNotIterable)
  }

  /** What `run` returns and leaves behind: the optimizer afterwards (its
      writers made, when line 66 succeeded), the effects up to the return or
      the exception, and `(losses, rewards)` or the exception. */
  datatype Outcome<H, R> = Outcome(
    state: PolicyOptimizer<H, R>,
    trace: seq<Effect<H>>,
    result: Result<(seq<Event>, seq<Event>), RunError>)

  /** `run(epochs)` when the session yields `obs[k]` at step `k`. */
  function Run<H, R>(o: PolicyOptimizer<H, R>, epochs: int, obs: seq<Sample>): (r: Outcome<H, R>)
    requires StepCount(epochs) <= |obs|
    ensures !o.logdir.Str? ==> r == Outcome(o, [], Err(LogdirNotString))
    ensures o.logdir.Str? ==>
      && r.state == o.(writers := Some((o.logdir.text + "/train", o.logdir.text + "/test")))
      && (Hooks(o.hooks).Err? ==> r.trace == [] && r.result == Err(Hooks(o.hooks).error))
    ensures r.result.Ok? <==> o.logdir.Str? && Hooks(o.hooks).Ok? && (o.built.Some? || epochs <= 0)
    ensures r.result.Ok? ==>
      var s := Session(epochs, obs, Some(Hooks(o.hooks).value));
      r.result.value == (s.0, s.1) && r.trace == s.2
    ensures o.logdir.Str? && Hooks(o.hooks).Ok? && o.built.None? && 0 < epochs ==>
      r.result == Err(NotBuilt) && r.trace == HookSetups(Hooks(o.hooks).value) + [InitVariables]
  {
    if !o.logdir.Str? then Outcome(o, [], Err(LogdirNotString))
    else
      var dir := o.logdir.text;
      var s := o.(writers := Some((dir + "/train", dir + "/test")));
      match Hooks(o.hooks)
      case Err(e) => Outcome(s, [], Err(e))
      case Ok(hs) =>
        if o.built.None? && 0 < epochs then
          Outcome(s, HookSetups(hs) + [InitVariables], Err(NotBuilt))
        else
          var run := Session(epochs, obs, Some(hs));
          Outcome(s, run.2, Ok((run.0, run.1)))
  }

  /** `__init__` without a log directory logs under `/tmp`: the first `run`
      makes writers for `/tmp/train` and `/tmp/test`, whatever else happens. */
  lemma DefaultLogdir<H, R>(hooks: Arg<H>, debug: bool, epochs: int, obs: seq<Sample>)
    requires StepCount(epochs) <= |obs|
    ensures var r := Run(New<H, R>(NoneArg, hooks, debug), epochs, obs);
      && r.state.writers == Some(("/tmp/train", "/tmp/test"))
      && r.result != Err(LogdirNotString)
  {
    assert "/tmp" + "/train" == "/tmp/train" && "/tmp" + "/test" == "/tmp/test";
  }

  /** Any log directory given to `__init__` is kept as it is: a string one
      names the writers' directories, anything else makes `run` fail at once. */
  lemma GivenLogdir<H, R>(logdir: Arg<H>, hooks: Arg<H>, debug: bool, epochs: int, obs: seq<Sample>)
    requires StepCount(epochs) <= |obs|
    requires !logdir.NoneArg?
    ensures var r := Run(New<H, R>(logdir, hooks, debug), epochs, obs);
      && (logdir.Str? ==> r.state.writers == Some((logdir.text + "/train", logdir.text + "/test")))
      && (!logdir.Str? ==> r.result == Err(LogdirNotString) && r.trace == [])
  {
  }

  /** How `run` treats what was passed as `hooks`: a non-empty string fails on
      `setup` of its first character and a policy is not iterable, both before
      anything is traced; `None`, an empty string and a list are used as hook lists. */
  lemma HooksInRun<H, R>(o: PolicyOptimizer<H, R>, epochs: int, obs: seq<Sample>)
    requires StepCount(epochs) <= |obs|
    requires o.logdir.Str?
    ensures var r := Run(o, epochs, obs);
      && (o.hooks.Str? && o.hooks.text != "" ==> r.result == Err(HookWithoutSetup(o.hooks.text[0])) && r.trace == [])
      && (o.hooks.PolicyObj? ==> r.result == Err(HooksNotIterable) && r.trace == [])
      && (o.hooks.HookSeq? && (o.built.Some? || epochs <= 0) ==>
            r.result.Ok? && r.trace == Session(epochs, obs, Some(o.hooks.hooks)).2)
      && ((o.hooks.NoneArg? || o.hooks == Str("")) && (o.built.Some? || epochs <= 0) ==>
            r.result.Ok? && Select(r.trace, HookEffect) == [])
  {
    if (o.hooks.NoneArg? || o.hooks == Str("")) && (o.built.Some? || epochs <= 0) {
      NoneHooksAsEmpty(o, epochs, obs);
      assert Run(o, epochs, obs).trace == Run(o.(hooks := NoneArg), epochs, obs).trace;
    }
  }

  /** A `None` hook list and an empty one make the same run: `_hooks_setup`,
      `_hooks_run` and `_hooks_teardown` all skip `None`. */
  lemma NoneHooksAsEmpty<H, R>(o: PolicyOptimizer<H, R>, epochs: int, obs: seq<Sample>)
    requires StepCount(epochs) <= |obs|
    ensures Run(o.(hooks := NoneArg), epochs, obs).trace == Run(o.(hooks := HookSeq([])), epochs, obs).trace
    ensures Run(o.(hooks := NoneArg), epochs, obs).result == Run(o.(hooks := HookSeq([])), epochs, obs).result
    ensures Select(Run(o.(hooks := NoneArg), epochs, obs).trace, HookEffect) == []
  {
    var r := Run(o.(hooks := NoneArg), epochs, obs);
    if r.result.Ok? {
      NoHooksNoCalls<H>(epochs, obs);
      assert Session(epochs, obs, Some([])) == Session<H>(epochs, obs, None);
    } else if o.logdir.Str? && o.built.None? && 0 < epochs {
      SelectNone(HookSetups<H>([]) + [InitVariables], HookEffect);
    }
  }

  /** `run` on a built optimizer with a string log directory and usable hooks
      does exactly the bookkeeping of `TrainingLoop.Session`, and its train
      writer logs to `<logdir>/train`. */
  lemma BuiltRunSucceeds<H, R>(o: PolicyOptimizer<H, R>, epochs: int, obs: seq<Sample>)
    requires StepCount(epochs) <= |obs|
    requires o.logdir.Str? && Hooks(o.hooks).Ok? && o.built.Some?
    ensures var r := Run(o, epochs, obs);
      && r.result.Ok?
      && r.state.writers == Some((o.logdir.text + "/train", o.logdir.text + "/test"))
      && Select(r.trace, SaveStep) == StepsOf(r.result.value.1)
      && Select(r.trace, HookEffect)
           == HookSetups(Hooks(o.hooks).value) + CallsUpTo(Hooks(o.hooks).value, StepCount(epochs))
              + HookTeardowns(Hooks(o.hooks).value)
  {
    var hooks := Some(Hooks(o.hooks).value);
    SessionSaves(epochs, obs, hooks);
    HookOrder(epochs, obs, hooks);
  }

  /** The policy saves of a run, as operations on the model's policy store:
      each is `save(sess)` without a path. */
  function SaveOps<H, P>(trace: seq<Effect<H>>): (r: seq<Persistence.Op<P>>)
    ensures |r| == |Select(trace, SaveStep)|
    ensures forall i :: 0 <= i < |r| ==> r[i] == Persistence.SaveOp(None)
    decreases |trace|
  {
    if |trace| == 0 then []
    else
      SelectAppend([trace[0]], trace[1..], SaveStep);
      assert [trace[0]] + trace[1..] == trace;
      SelectSingle(trace[0], SaveStep);
      (if trace[0].SavePolicy? then [Persistence.SaveOp(None)] else []) + SaveOps(trace[1..])
  }

  /** Path-less saves from a fresh store: a checkpoint exists exactly when
      there was at least one, it is the default path, `restore(sess)` then
      finds it, and the saver was built once if anything was saved. */
  lemma PathlessSaves<P>(p: DeepReactivePolicy, x: P, ops: seq<Persistence.Op<P>>)
    requires forall i :: 0 <= i < |ops| ==> ops[i] == Persistence.SaveOp(None)
    ensures var store := Persistence.Replay(p, Persistence.Fresh(x), ops);
      && (store.checkpoint.Some? <==> |ops| > 0)
      && (|ops| > 0 ==> store.checkpoint == Some(DefaultSavePath(p)) && Persistence.Restore(store, None).1.None?)
      && store.saversCreated == if |ops| > 0 then 1 else 0
  {
    Persistence.CheckpointIsLastSave(p, x, ops);
    Persistence.SaverCreatedOnce(p, x, ops);
    if |ops| > 0 {
      assert Persistence.TouchesSaver(ops[0]);
      var before := Persistence.Replay(p, Persistence.Fresh(x), ops[..|ops| - 1]);
      assert Persistence.Replay(p, Persistence.Fresh(x), ops) == Persistence.Save(p, before, None).1;
    }
  }

  /** After a successful run from a fresh policy store, the policy has a
      checkpoint exactly when some step was recorded, at its default save path,
      and `restore(sess)` without a path then succeeds; the saver was built once
      if anything was saved and not at all otherwise. */
  lemma RunCheckpoint<H, R, P>(o: PolicyOptimizer<H, R>, epochs: int, obs: seq<Sample>, p: DeepReactivePolicy, x: P)
    requires StepCount(epochs) <= |obs|
    requires o.logdir.Str? && Hooks(o.hooks).Ok? && o.built.Some?
    ensures var r := Run(o, epochs, obs);
      var store := Persistence.Replay(p, Persistence.Fresh(x), SaveOps<H, P>(r.trace));
      && r.result.Ok?
      && (store.checkpoint.Some? <==> |r.result.value.1| > 0)
      && (|r.result.value.1| > 0 ==>
            store.checkpoint == Some(DefaultSavePath(p)) && Persistence.Restore(store, None).1.None?)
      && store.saversCreated == if |r.result.value.1| > 0 then 1 else 0
  {
    var r := Run(o, epochs, obs);
    BuiltRunSucceeds(o, epochs, obs);
    var ops := SaveOps<H, P>(r.trace);
    assert |ops| == |StepsOf(r.result.value.1)| == |r.result.value.1|;
    PathlessSaves(p, x, ops);
  }
}
