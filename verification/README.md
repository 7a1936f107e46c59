# tf-mdp core in Dafny

A model of the pure logic under tf-mdp's TensorFlow code. The repository trains
deep reactive policies for RDDL planning problems.

- **`PolicyOptimizationPlanner`** (`tfmdp/planner.py`): its three configuration
  tables, name lookup in `__init__` and `build`, the default names, and what
  `run` returns. `build` is modelled twice: once as written, with the
  constructor's arguments passed positionally, and once with the log directory
  passed by keyword.
- **`PolicyOptimizer`** (`tfmdp/train/optimizer.py`): the constructor, what
  `build` records, and the bookkeeping of `run`.
  - `run` is a left fold over the per-step `(loss, reward)` pairs the session
    returns. It gives the two improvement histories and one ordered trace of
    everything the run does outside: hook setups, variable initialisation,
    train and best summaries, policy saves, hook calls, and teardowns.
  - Also modelled: the regularisation loop, and `_get_summary_name` as a
    leftmost search for each fixed pattern over the characters of the name.
- **`DeepReactivePolicy`** (`tfmdp/train/policy.py`):
  - its name and default checkpoint path;
  - the lazily created saver and the path `restore` falls back to;
  - the widths and shapes of the layers `__call__` builds;
  - the trainable variables those layers create, and the `size` property that
    counts them;
  - the four-way bound transform of `_get_output_tensor`.

Modules:

| file | module | what it holds |
|---|---|---|
| wrappers.dfy | `Wrappers` | `Option`, `Result` |
| text.dfy | `Text` | decimal digits, `join`/`split`, `replace`, prefix, suffix, substring |
| tensors.dfy | `Tensors` | a variable (name and shape) and element counts |
| choices.dfy | `Choices` | the planner's activation, optimizer and loss tables |
| policy.dfy | `Policy` | the policy's configuration, `name`, default save path |
| persistence.dfy | `Persistence` | `save` and `restore` over an abstract store |
| policy_network.dfy | `PolicyNetwork` | layer widths, the variables created, `size` |
| action_bounds.dfy | `ActionBounds` | `_get_output_tensor` and `_action_outputs` |
| training_loop.dfy | `TrainingLoop` | the loop of `run` and the hook helpers |
| regularization.dfy | `Regularization` | `_build_regularization_loss_graph` |
| summary_name.dfy | `SummaryName` | `_get_summary_name` |
| optimizer.dfy | `Optimizer` | `PolicyOptimizer` as an object |
| planner.dfy | `Planner` | `PolicyOptimizationPlanner` |

Parameters stand in for the parts the model cannot see:

- the per-step values the TensorFlow session returns (`obs`);
- the hooks (`H`), the regularisers (`R`) and the policy's parameter values (`P`);
- `sigmoid` and `exp`;
- the compiler's fluent orderings, shapes and bound keys;
- the trainable variables of the graph.

## Model

| member | source | states |
|---|---|---|
| Choices.LookupActivation | tfmdp/planner.py:31-42 | lookup succeeds exactly for the ten listed names, returns the choice listed under that name, and fails with a lookup error naming the key otherwise |
| Choices.LookupOptimizer | tfmdp/planner.py:44-52 | lookup succeeds exactly for the seven optimizer names, returns the class listed under that name, and fails naming the key otherwise |
| Choices.LookupLoss | tfmdp/planner.py:25-29 | lookup succeeds exactly for `linear`, `mse` and `huber`, returns the loss listed under that name, and fails naming the key otherwise |
| Choices.ActivationTableBijective | tfmdp/planner.py:31-42 | every activation choice is listed under one key, which looks it up again; distinct keys give distinct choices; `'none'` alone gives no activation |
| Choices.OptimizerTableBijective | tfmdp/planner.py:44-52 | the optimizer table is a bijection between its names and the seven classes |
| Choices.LossTableBijective | tfmdp/planner.py:25-29 | the loss table is a bijection between its names and the three losses |
| Policy.NameRoundTrip | tfmdp/train/policy.py:45-47 | the name is `drp-fc-layers=` with the decimal layer sizes joined by `+`; parsing it gives the layer sizes back |
| Policy.NameInjective | tfmdp/train/policy.py:62-66 | two policies share a name, and so a default checkpoint path, exactly when their layer sizes are equal |
| Policy.DefaultSavePathShape | tfmdp/train/policy.py:65-66 | the default path starts with `/tmp/drp-fc-layers=`, ends with `/model.ckpt`, and holds the policy's name between the two |
| Persistence.Save | tfmdp/train/policy.py:62-68 | returns the given path, or the default path when none is given; remembers it as the checkpoint; writes the live values there and leaves every other path alone; the saver exists afterwards and an existing one is kept |
| Persistence.Restore | tfmdp/train/policy.py:70-75 | without a path and before any save, fails with the checkpoint unset; otherwise reads the given path or else the remembered one, and fails when nothing was saved there; creates the saver even when it then fails |
| Persistence.SaverCreatedOnce | tfmdp/train/policy.py:62-75 | from a fresh policy, after any sequence of saves, restores and updates, exactly one saver was built if a save or restore happened, and none otherwise |
| Persistence.CheckpointIsLastSave | tfmdp/train/policy.py:65-68 | the remembered checkpoint is the path of the most recent save, and is unset before the first |
| Persistence.RestoreBeforeSaveFails | tfmdp/train/policy.py:70-75 | `restore` without a path before any `save` fails |
| Persistence.RestoreRecoversLastSave | tfmdp/train/policy.py:62-75 | after a save, whatever follows except another save, `restore` without a path succeeds and brings back the saved values |
| Persistence.RestoreRecoversInTrace | tfmdp/train/policy.py:62-75 | within any sequence of operations from a fresh policy: after a save followed by anything but another save, `restore` without a path succeeds and brings back the values the policy had at that save |
| ActionBounds.ScaledFraction | tfmdp/train/policy.py:157-158 | `lower + (upper - lower) * s` lies strictly between the two bounds for `0 < s < 1`, whichever bound is larger |
| ActionBounds.BoundedValue | tfmdp/train/policy.py:148-164 | given `0 < sigmoid < 1` and `exp > 0`: both bounds put the value strictly between them, or on them when they are equal; a lower bound alone puts it above; an upper bound alone puts it below; with no bounds the value is unchanged |
| ActionBounds.ActionOutputs | tfmdp/train/policy.py:134-146 | one output per action fluent, in order: output `j` is fluent `j`'s own raw tensor under fluent `j`'s own bounds, elementwise as `BoundedValue` transforms it, so it lies within those bounds and an unbounded output passes through unchanged; fails exactly when some fluent has no bounds entry, naming the first such fluent in order, as `bounds[fluent_name]` raises on it |
| PolicyNetwork.FlatWidths | tfmdp/train/policy.py:90-93 | flattening succeeds exactly when the batch size is positive and every state tensor's element count is a multiple of it; each width times the batch size is that count; otherwise fails naming a tensor that cannot be reshaped |
| PolicyNetwork.InputLayer | tfmdp/train/policy.py:90-106 | succeeds exactly when the first state tensor has a first dimension, every state tensor can be flattened by it, and the compiler names at least one state fluent; no state, a scalar first tensor, a tensor that cannot be reshaped and nothing to concatenate are the four failures, each reported exactly in its case: the first tensor in order that cannot be reshaped is the one named, and with every tensor reshaped an empty list of state-fluent names fails for nothing to concatenate; on success the batch size is that first dimension and there is one flattened width per zipped state fluent, in order, with `/` replaced by `-` in the scope names |
| PolicyNetwork.HiddenLayers | tfmdp/train/policy.py:108-119 | one dense layer per entry of `layers`, with `layers[i]` units, scoped `hidden1`, `hidden2`, ...; the first is fed the input width and each later one the output of the one before, which `crelu` makes twice as wide as its units and every other activation leaves as wide |
| PolicyNetwork.OutputLayers | tfmdp/train/policy.py:121-132 | one linear dense layer per action fluent, scoped `output/<fluent>` with `/` replaced by `-`, sized to the product of the fluent's shape and fed by the last hidden layer |
| PolicyNetwork.Evaluate | tfmdp/train/policy.py:77-146 | succeeds exactly when the input layer can be built and every action fluent taking part has bounds; input-layer errors are passed on, and otherwise the first action fluent in order without bounds is reported as missing its bounds; on success the input layer is `InputLayer`'s, the hidden tuple is the input width then each hidden layer's output width, `layers[i]`, or `2 * layers[i]` under `crelu`, each hidden layer having `layers[i]` units and fed by the width before it, and there is one output per action fluent in compiler order, fed by the last hidden width and reshaped to `[batch] + shape` |
| PolicyNetwork.SizeIsParamCount | tfmdp/train/policy.py:49-54 | when the policy's scope is nested in another scope, `size` equals the closed-form parameter count: `2 * input width` for input layer norm, `w[i] * layers[i] + k * layers[i]` per hidden layer, where `w[i]` is the width feeding it (`2 * layers[i-1]` under `crelu`) and `k` is 3 with hidden layer norm, else 1, and `(last width + 1) * units` per output |
| PolicyNetwork.PolicyVariablesKept | tfmdp/train/policy.py:52-53 | the `.*\/policy` filter keeps every variable the policy creates under a nested scope, so `size` sums all their element counts |
| PolicyNetwork.SmallPolicySize | tfmdp/train/policy.py:49-54 | a policy with one hidden layer of 4 units and no activation, called on one `[1, 3]` state tensor with one bounded action fluent of shape `[2]` inside the scope `drp/`, builds successfully and has `size` 26: `3 * 4 + 4` for the hidden layer and `(4 + 1) * 2` for the output layer |
| PolicyNetwork.SmallCreluPolicySize | tfmdp/train/policy.py:108-130 | the same one-hidden-layer policy under `crelu`: the output layer is fed 8 wide, and `size` is 34 |
| Regularization.NamesEndingWith | tfmdp/train/optimizer.py:133 | a name is kept exactly when some variable has it and it ends with the suffix; every kept name ends with the suffix |
| Regularization.RegularizedLoss | tfmdp/train/optimizer.py:128-140 | the loss is the base loss, then one penalty per matching kernel when a kernel regulariser is given, then one per matching bias when a bias regulariser is given; with neither, the loss is unchanged |
| Regularization.RegularizedLossOrder | tfmdp/train/optimizer.py:132-140 | the kernel penalties come first, each applying the kernel regulariser to a `/kernel:0` variable; the bias penalties follow, each applying the bias regulariser to a `/bias:0` variable |
| Regularization.RegularizedLossCovers | tfmdp/train/optimizer.py:132-140 | every matching variable is penalised, and every penalty is of a variable in the graph |
| Regularization.KernelIsNotBias | tfmdp/train/optimizer.py:133-138 | no variable matches both the kernel and the bias pattern |
| Regularization.RegulariserBySuffix | tfmdp/train/optimizer.py:132-140 | every summand after the base loss is a penalty, and its regulariser is the kernel regulariser when its variable is a kernel and the bias regulariser when it is a bias |
| Regularization.PolicyPenaltyCount | tfmdp/train/optimizer.py:132-140 | on the policy's variables, each regulariser adds one penalty per dense layer, hidden or output, and none for layer norm |
| TrainingLoop.HistoriesWellFormed | tfmdp/train/optimizer.py:99-102 | `losses` and `rewards` have equal length and the same step at each index; each entry is the value sampled at its step; steps and rewards strictly increase; rewards lie above `-sys.maxsize`; the running best is the last recorded reward |
| TrainingLoop.BeatsBestIffRecord | tfmdp/train/optimizer.py:99-100 | a reward beats the running best exactly when it beats `-sys.maxsize` and every earlier reward |
| TrainingLoop.LoopBestIsBest | tfmdp/train/optimizer.py:72-100 | the loop's `reward` is the largest of `-sys.maxsize` and every reward so far |
| TrainingLoop.RecordedIffImproves | tfmdp/train/optimizer.py:72-102 | a step is recorded exactly when its reward strictly beats `-sys.maxsize` and every earlier reward; a reward at or below `-sys.maxsize` is never recorded |
| TrainingLoop.SessionSaves | tfmdp/train/optimizer.py:87-105 | the policy is saved, and the best summary written, exactly at the recorded steps, in order; recorded steps are the improving ones below `max(0, epochs)`; the train summary is written at every step |
| TrainingLoop.HookOrder | tfmdp/train/optimizer.py:206-219 | the hook trace is every setup in list order, then for each step in increasing order every hook called with it in list order, then every teardown in list order |
| TrainingLoop.CallsUpToIndex | tfmdp/train/optimizer.py:211-214 | hook call number `k * len(hooks) + i` is hook `i` called with step `k` |
| TrainingLoop.NoHooksNoCalls | tfmdp/train/optimizer.py:206-219 | with `hooks = None` the run makes no hook setup, call or teardown |
| TrainingLoop.NoEpochs | tfmdp/train/optimizer.py:72-117 | with `epochs <= 0` both histories are empty and the trace is every hook's setup, the variable initialisation, then every hook's teardown |
| SummaryName.FindPair | tfmdp/train/optimizer.py:177-178 | the search finds a match of `/([^/]+)/([^/]+)` followed by the tail exactly when one exists, and finds the leftmost |
| SummaryName.LayerNormName | tfmdp/train/optimizer.py:177-187 | a layer-norm name exists exactly when either pattern matches; the first pattern wins over the second; the name is the two captured scopes and the fixed suffix |
| SummaryName.LayerPart | tfmdp/train/optimizer.py:189-197 | at the leftmost `hidden\d+` match, `hidden` followed by the whole run of digits there; else, at the leftmost `output/([^/]+)/dense/` match, `output/` followed by the scope up to the next slash; else empty, and empty only then |
| SummaryName.SummaryName | tfmdp/train/optimizer.py:176-204 | a `beta` match gives the `beta` layer-norm name (the scopes around the leftmost match of the first `beta` pattern, else of the second, then `/LayerNorm/beta`); else a `gamma` match gives the `gamma` layer-norm name likewise; else the layer part followed by the role |
| SummaryName.Precedence | tfmdp/train/optimizer.py:176-204 | `beta` over `gamma`, both over the layer part; `hidden` over `output`; `/kernel` over `/bias`; the result is empty exactly when no pattern matches |
| SummaryName.BetaNameKept | tfmdp/train/optimizer.py:177-181 | for a layer-norm `beta` under `pre/a/b` with no slash in `pre`, `a` or `b`, the summary name is `a/b/LayerNorm/beta` |
| SummaryName.GammaNameKept | tfmdp/train/optimizer.py:183-187 | the same for a `gamma` when nothing names a `beta` |
| SummaryName.NoLayerNorm | tfmdp/train/optimizer.py:177-187 | a name without a capital `L` matches no layer-norm pattern |
| SummaryName.HiddenLayerPart | tfmdp/train/optimizer.py:191-193 | when no `h` comes before a `hidden` that is followed by a run of digits, the layer part is `hidden` and exactly those digits |
| SummaryName.HiddenKernelSummary | tfmdp/train/optimizer.py:189-200 | under an enclosing scope with no `h` and no `L`, the kernel `<outer>policy/hidden<n>/dense/kernel:0` of hidden layer `n` is summarised as `hidden<n>/kernel` |
| SummaryName.HiddenBiasSummary | tfmdp/train/optimizer.py:189-202 | under an enclosing scope with none of `h`, `L`, `M` and `k`, the bias `<outer>policy/hidden<n>/dense/bias:0` of hidden layer `n` is summarised as `hidden<n>/bias` |
| SummaryName.OutputLayerPart | tfmdp/train/optimizer.py:194-197 | when no `u` comes before the first `output/`, the hidden pattern does not match, and a slash-free scope follows up to `/dense/`, the layer part is `output/` and exactly that scope |
| SummaryName.OutputKernelSummary | tfmdp/train/optimizer.py:189-200 | under an enclosing scope with no `h`, `u` or `L`, the kernel `<outer>policy/output/<f>/dense/kernel:0` of the output layer for a slash-free fluent scope `f` without `L` or `hidden` is summarised as `output/<f>/kernel` |
| Optimizer.DefaultLogdir | tfmdp/train/optimizer.py:37 | an optimizer constructed without a log directory writes its summaries under `/tmp`: `run` makes writers for `/tmp/train` and `/tmp/test` and never fails on the log directory |
| Optimizer.GivenLogdir | tfmdp/train/optimizer.py:37 | any other log directory is kept as given, unchecked: a string names the writers' directories, and anything else makes `run` fail before any effect |
| Optimizer.Build | tfmdp/train/optimizer.py:46-60 | records the optimizer class, learning rate and regularisers; the loss is exactly the regularised loss of the graph's variables under the two regularisers; nothing else changes |
| Optimizer.BuiltLoss | tfmdp/train/optimizer.py:46-60 | the built loss is the base loss, then kernel penalties by the kernel regulariser on `/kernel:0` variables, then bias penalties by the bias regulariser on `/bias:0` variables; every matching variable is penalised, and only variables of the graph are |
| Optimizer.HooksInRun | tfmdp/train/optimizer.py:206-209 | with a string log directory: a nonempty string passed as hooks fails on its first character's missing `setup`, and a policy object is not iterable, both before any effect; a list is used as the hook list; `None` and an empty string call no hook |
| Optimizer.Run | tfmdp/train/optimizer.py:62-117 | succeeds exactly when the log directory is a string, the hooks are usable, and the optimizer is built or `epochs <= 0`; a log directory that is not a string fails before anything else; otherwise the writers log to `<logdir>/train` and `<logdir>/test`; unusable hooks fail before any effect; an unbuilt optimizer fails at the first step, after the setups and the initialisation; on success the result and trace are those of the training loop |
| Optimizer.NoneHooksAsEmpty | tfmdp/train/optimizer.py:206-219 | `hooks = None` and an empty hook list give the same run, and neither calls any hook |
| Optimizer.BuiltRunSucceeds | tfmdp/train/optimizer.py:62-117 | a built optimizer with a string log directory and usable hooks runs to the end: saves at exactly the recorded steps and hooks in setup, per-step, teardown order |
| Optimizer.RunCheckpoint | tfmdp/train/optimizer.py:99-105 | after a successful run from a fresh policy, a checkpoint exists exactly when some step was recorded; it is the default path; `restore` without a path then succeeds; one saver was built if anything was saved |
| Planner.New | tfmdp/planner.py:54-60 | construction succeeds exactly for a listed activation name, with the policy built from the compiler, layers, the resolved activation and the two layer-norm flags; an unknown name fails naming it; nothing is built yet |
| Planner.BuildWith | tfmdp/planner.py:62-66 | the optimizer is assigned first; an unknown optimizer name fails, then an unknown loss name; otherwise the optimizer is built with the resolved loss as kernel regulariser and no bias regulariser |
| Planner.BuildAsWritten | tfmdp/planner.py:62-63 | the optimizer's log directory is the policy object and its hooks are the planner's log directory |
| Planner.Build | tfmdp/planner.py:62-66 | with the log directory passed by keyword, the optimizer has no hooks and logs to the planner's directory, or to `/tmp` |
| Planner.DefaultsResolve | tfmdp/planner.py:62 | the default names `RMSProp` and `linear` always resolve |
| Planner.Run | tfmdp/planner.py:68-71 | fails before any `build`; otherwise returns the reward history (not the loss history), the planner's own policy and the train writer's log directory, or the optimizer's failure |
| Planner.AsWrittenRunFails | tfmdp/planner.py:63 | as written, every `run` after a `build` fails because the log directory is not a string, whether or not the build succeeded |
| Planner.BuiltRunReturns | tfmdp/planner.py:68-71 | after a successful corrected `build`, `run` returns the training loop's reward history, the planner's policy and `<logdir>/train` |
| Planner.RunBeforeBuildFails | tfmdp/planner.py:68-69 | `run` on a freshly constructed planner fails: the optimizer is not assigned |

## Left out

- TensorFlow graph, session and variable-scope mechanics, gradients and optimizer updates are library internals. The per-step loss and reward are inputs; the loss is the list of its summands.
- Floating point: rewards, losses and bounds are `real`.
  - A NaN reward, float32 rounding, and `sigmoid` or `exp` saturating are not modelled.
  - `sigmoid` and `exp` are parameters, constrained only by `0 < sigmoid < 1` and `exp > 0`.
- ActionBounds.BoundedValue: states strict bounds over `real`. In float32, `sigmoid` can round to exactly 0 or 1, or `exp` to 0, and the value then lands on a bound.
- ActionBounds.ActionOutputs: takes each fluent's bounds as already broadcast to the flattened output. Broadcasting of the compiler's bound tensors and the `cast`/`stop_gradient` calls are not modelled.
- PolicyNetwork.SizeIsParamCount: stated only when the policy's scope is nested in another variable scope, where every policy variable name contains `/policy`. At top level the names start with `policy/`, so the filter keeps only the variables whose fluent scope itself begins with `policy`, such as `policy/output/policy-x/dense/kernel:0`.
- The baseline fitting and progress printing in `run` (`baseline_flag`, `show_progress`) are left out. They call an external model and print.
- `_build_debug_graph` and `_build_summary_graph` are left out. They only create summaries; `_get_summary_name`, which the debug graph calls, is modelled on its own.
- Summary writers, checkpoint files and `get_logdir` are I/O.
  - A writer is represented by its log directory, and `get_logdir` returns it unchanged.
  - `save` always succeeds. The disk is a map from path to saved values.
- The object passed to `PolicyOptimizer` as `model` is abstract. It is assumed to have the `graph`, `total_reward`, `surrogate_batch_cost` and `_policy` attributes that `build` and `run` read; the rddl2tf compiler's attributes are not part of this model. So `Optimizer.Build` never fails. `Planner.AsWrittenRunFails` holds either way, because line 66 fails whatever `build` did.
- The regular expressions are modelled only for the patterns the code uses, over single characters. Python's Unicode `\d` (digits beyond `0`-`9`) and newline handling are not modelled.
- Layer sizes are natural numbers. Negative sizes, which TensorFlow rejects, are not modelled.
- SummaryName.HiddenKernelSummary, SummaryName.HiddenBiasSummary and SummaryName.OutputKernelSummary: state the summary names of the policy's own variables only when the enclosing scope and fluent names lack the letters that could start an earlier match. The output layer's bias and the layer-norm variables of the policy are not given their own lemma; `Precedence`, `BetaNameKept` and `GammaNameKept` cover them in general.
- The `vars` property, `__call__`'s tensor values and `layer_norm`'s arithmetic are left out. Only widths, shapes and the variables created are modelled. Of the activations, only the width they give a layer's output matters there: `crelu` doubles it and the others keep it.
- `batch_size` and `horizon` are accepted by `build` and not used, as in the code.
- The loss function reaches `build` in the fifth positional place, `kernel_regularizer` (tfmdp/planner.py:66). Both planner builds model this as written: the loss is applied as a penalty to every kernel. No evident intended fix exists.

## Findings

| source | as written | input that shows it | evidently intended | confidence | as-written member | corrected member |
|---|---|---|---|---|---|---|
| tfmdp/planner.py:63 | the compiler, the policy and the log directory are passed positionally to a constructor whose parameters are `(model, logdir, hooks, debug)`. The optimizer's `logdir` becomes the policy object and its `hooks` the planner's log directory, so `self._logdir + '/train'` (tfmdp/train/optimizer.py:66) raises `TypeError` | any planner, any arguments to `build`, then `run(epochs)` | the planner's log directory passed as `logdir=self._logdir`, with no hooks | not executed | Planner.AsWrittenRunFails | Planner.BuiltRunReturns |
