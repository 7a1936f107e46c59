/** `PolicyOptimizationPlanner` (tfmdp/planner.py): names resolved through the
    three configuration tables, the optimizer it creates in `build`, and what
    `run` returns. `build` is given twice: `BuildAsWritten` passes its
    arguments to `PolicyOptimizer` positionally, as line 63 does, and `Build`
    passes the log directory by keyword; the rest of the model uses `Build`. */
module Planner {
  import opened Wrappers
  import opened Tensors
  import opened Policy
  import opened Choices
  import opened TrainingLoop
  import opened Optimizer

  /** The planner's fields. `optimizer` is `_optimizer`, absent before `build`;
      the optimizer's regularisers are loss functions. */
  datatype Planner<H> = Planner(
    compiler: Compiler,
    policy: DeepReactivePolicy,
    logdir: Option<string>,
    optimizer: Option<PolicyOptimizer<H, LossKind>>)

  /** Why `run` fails: `_optimizer` was never assigned (`AttributeError`), or
      the optimizer's own `run` raised. */
  datatype PlannerError = NoOptimizer | RunFailed(error: RunError)

  const DefaultOptimizer := "RMSProp"
  const DefaultLoss := "linear"

  /** `__init__`: the activation name is looked up before anything else, and the
      policy is built from the compiler, the layers and the resolved activation. */
  function New<H>(compiler: Compiler, layers: seq<nat>, activation: string,
                  inputLayerNorm: bool, hiddenLayerNorm: bool, logdir: Option<string>): (r: Result<Planner<H>, ConfigError>)
    ensures r.Ok? <==> activation in ActivationNames
    ensures r.Err? ==> r.error == UnknownActivation(activation)
    ensures r.Ok? ==>
      && r.value.policy.compiler == compiler && r.value.policy.layers == layers
      && ActivationKey(r.value.policy.activation) == activation
      && r.value.policy.inputLayerNorm == inputLayerNorm && r.value.policy.hiddenLayerNorm == hiddenLayerNorm
      && r.value.compiler == compiler && r.value.logdir == logdir && r.value.optimizer.None?
  {
    var act :- LookupActivation(activation);
    Ok(Planner(compiler, DeepReactivePolicy(compiler, layers, act, inputLayerNorm, hiddenLayerNorm), logdir, None))
  }

  /** The planner's `logdir` as the Python value it is. */
  function LogdirArg<H>(logdir: Option<string>): (r: Arg<H>)
    ensures logdir.None? <==> r.NoneArg?
    ensures logdir.Some? ==> r == Str(logdir.value)
  {
    if logdir.Some? then Str(logdir.value) else NoneArg
  }

  /** The rest of `build` once the optimizer is assigned: the optimizer name is
      looked up, then the loss name, and the optimizer is built with the loss
      function in the fifth positional place, `kernel_regularizer`. */
  function BuildWith<H>(pl: Planner<H>, opt: PolicyOptimizer<H, LossKind>, learningRate: real, batchSize: int,
                        horizon: int, optimizer: string, loss: string, vars: seq<Var>): (r: (Planner<H>, Option<ConfigError>))
    ensures r.1.None? <==> optimizer in OptimizerNames && loss in LossNames
    ensures optimizer !in OptimizerNames ==> r.1 == Some(UnknownOptimizer(optimizer))
    ensures optimizer in OptimizerNames && loss !in LossNames ==> r.1 == Some(UnknownLoss(loss))
    ensures r.1.Some? ==> r.0 == pl.(optimizer := Some(opt))
    ensures r.1.None? ==>
      r.0 == pl.(optimizer := Some(Optimizer.Build(opt, learningRate, batchSize, horizon,
        LookupOptimizer(optimizer).value, Some(LookupLoss(loss).value), None, vars)))
  {
    var withOpt := pl.(optimizer := Some(opt));
    match LookupOptimizer(optimizer)
    case Err(e) => (withOpt, Some(e))
    case Ok(kind) =>
      match LookupLoss(loss)
      case Err(e) => (withOpt, Some(e))
      case Ok(lossFn) =>
        (pl.(optimizer := Some(Optimizer.Build(opt, learningRate, batchSize, horizon, kind, Some(lossFn), None, vars))),
         None)
  }

  /** `build` as written: `PolicyOptimizer(self._compiler, self._policy,
      self._logdir)` binds the policy to `logdir` and the planner's log
      directory to `hooks`. */
  function BuildAsWritten<H>(pl: Planner<H>, learningRate: real, batchSize: int, horizon: int,
                             optimizer: string, loss: string, vars: seq<Var>): (r: (Planner<H>, Option<ConfigError>))
    ensures r.0.optimizer.Some? && r.0.optimizer.value.logdir == PolicyObj(pl.policy)
    ensures r.0.optimizer.value.hooks == LogdirArg(pl.logdir)
    ensures r.1.None? <==> optimizer in OptimizerNames && loss in LossNames
    ensures r.0.policy == pl.policy && r.0.logdir == pl.logdir
  {
    BuildWith(pl, Optimizer.New(PolicyObj(pl.policy), LogdirArg(pl.logdir), false),
              learningRate, batchSize, horizon, optimizer, loss, vars)
  }

  /** `build` with the log directory passed as `logdir=self._logdir`: no hooks,
      and `'/tmp'` when the planner has no log directory. */
  function Build<H>(pl: Planner<H>, learningRate: real, batchSize: int, horizon: int,
                    optimizer: string, loss: string, vars: seq<Var>): (r: (Planner<H>, Option<ConfigError>))
    ensures r.0.optimizer.Some? && r.0.optimizer.value.hooks == NoneArg
    ensures r.0.optimizer.value.logdir == Str(if pl.logdir.Some? then pl.logdir.value else "/tmp")
    ensures r.1.None? <==> optimizer in OptimizerNames && loss in LossNames
    ensures r.0.policy == pl.policy && r.0.logdir == pl.logdir
  {
    BuildWith(pl, Optimizer.New(LogdirArg(pl.logdir), NoneArg, false),
              learningRate, batchSize, horizon, optimizer, loss, vars)
  }

  /** `run(epochs)`: the reward history (not the loss history), the planner's
      own policy, and the train writer's log directory. */
  function Run<H>(pl: Planner<H>, epochs: int, obs: seq<Sample>): (r: Result<(seq<Event>, DeepReactivePolicy, string), PlannerError>)
    requires StepCount(epochs) <= |obs|
    ensures pl.optimizer.None? ==> r == Err(NoOptimizer)
    ensures pl.optimizer.Some? ==>
      var out := Optimizer.Run(pl.optimizer.value, epochs, obs);
      && (out.result.Err? ==> r == Err(RunFailed(out.result.error)))
      && (out.result.Ok? ==>
            r.Ok? && r.value.0 == out.result.value.1 && r.value.1 == pl.policy
            && r.value.2 == pl.optimizer.value.logdir.text + "/train")
  {
    if pl.optimizer.None? then Err(NoOptimizer)
    else
      var out := Optimizer.Run(pl.optimizer.value, epochs, obs);
      match out.result
      case Err(e) => Err(RunFailed(e))
      case Ok(histories) => Ok((histories.1, pl.policy, out.state.writers.value.0))
  }

  /** The default names always resolve: `build` with them builds an RMSProp
      optimizer whose kernel regulariser is the absolute-difference loss. */
  lemma DefaultsResolve<H>(pl: Planner<H>, learningRate: real, batchSize: int, horizon: int, vars: seq<Var>)
    ensures var r := Build(pl, learningRate, batchSize, horizon, DefaultOptimizer, DefaultLoss, vars);
      && r.1.None?
      && r.0.optimizer.value.built.Some?
      && r.0.optimizer.value.built.value.optimizer == RMSProp
      && r.0.optimizer.value.built.value.kernelRegularizer == Some(AbsoluteDifference)
      && r.0.optimizer.value.built.value.biasRegularizer == None
  {
  }

  /** As written, every `run` after a `build` fails, whether or not the build
      itself succeeded: the optimizer's `logdir` is the policy object, and
      `self._logdir + '/train'` raises `TypeError` before any training step. */
  lemma AsWrittenRunFails<H>(pl: Planner<H>, learningRate: real, batchSize: int, horizon: int,
                             optimizer: string, loss: string, vars: seq<Var>, epochs: int, obs: seq<Sample>)
    requires StepCount(epochs) <= |obs|
    ensures var built := BuildAsWritten(pl, learningRate, batchSize, horizon, optimizer, loss, vars).0;
      Run(built, epochs, obs) == Err(RunFailed(LogdirNotString))
  {
  }

  /** With the log directory passed by keyword, a successful `build` makes `run`
      return the reward history of the training loop, the planner's own policy,
      and `<logdir>/train`. */
  lemma BuiltRunReturns<H>(pl: Planner<H>, learningRate: real, batchSize: int, horizon: int,
                           optimizer: string, loss: string, vars: seq<Var>, epochs: int, obs: seq<Sample>)
    requires StepCount(epochs) <= |obs|
    requires optimizer in OptimizerNames && loss in LossNames
    ensures var built := Build(pl, learningRate, batchSize, horizon, optimizer, loss, vars).0;
      var dir := if pl.logdir.Some? then pl.logdir.value else "/tmp";
      Run(built, epochs, obs) == Ok((Session<H>(epochs, obs, None).1, pl.policy, dir + "/train"))
  {
    var built := Build(pl, learningRate, batchSize, horizon, optimizer, loss, vars).0;
    var o := built.optimizer.value;
    assert o.built.Some?;
    assert Hooks(o.hooks) == Ok([]);
    assert Session<H>(epochs, obs, Some([])) == Session<H>(epochs, obs, None);
  }

  /** `run` before any `build` fails: `_optimizer` is not yet assigned. */
  lemma RunBeforeBuildFails<H>(compiler: Compiler, layers: seq<nat>, activation: string,
                               inputLayerNorm: bool, hiddenLayerNorm: bool, logdir: Option<string>,
                               epochs: int, obs: seq<Sample>)
    requires activation in ActivationNames && StepCount(epochs) <= |obs|
    ensures var pl := New<H>(compiler, layers, activation, inputLayerNorm, hiddenLayerNorm, logdir);
      pl.Ok? && Run(pl.value, epochs, obs) == Err(NoOptimizer)
  {
  }
}
