/** The planner's three closed configuration tables (`_non_linearities`,
    `_optimizers`, `_loss_fn` of `PolicyOptimizationPlanner`): the name each
    choice is listed under, and lookup by name, which fails on a name the table
    does not list (Python's `KeyError`). */
module Choices {
  import opened Wrappers

  /** The activation functions `_non_linearities` lists besides `'none'`. */
  datatype Activation = Sigmoid | Tanh | Relu | Relu6 | Crelu | Elu | Selu | Softplus | Softsign

  /** The optimizer classes `_optimizers` lists. */
  datatype OptimizerKind =
    | Adadelta | Adagrad | Adam | GradientDescent
    | ProximalGradientDescent | ProximalAdagrad | RMSProp

  /** The loss functions `_loss_fn` lists, each measuring the distance of its argument from 0. */
  datatype LossKind = AbsoluteDifference | MeanSquaredError | HuberLoss

  /** The `KeyError` a table lookup raises, tagged with the table and the missing key. */
  datatype ConfigError =
    | UnknownActivation(name: string)
    | UnknownOptimizer(name: string)
    | UnknownLoss(name: string)

  const ActivationNames: set<string> :=
    {"none", "sigmoid", "tanh", "relu", "relu6", "crelu", "elu", "selu", "softplus", "softsign"}

  const OptimizerNames: set<string> :=
    {"Adadelta", "Adagrad", "Adam", "GradientDescent", "ProximalGradientDescent", "ProximalAdagrad", "RMSProp"}

  const LossNames: set<string> := {"linear", "mse", "huber"}

  /** How many times wider than its number of units a layer's output is under
      the activation: `tf.nn.crelu` concatenates `relu(x)` with `relu(-x)`, so it
      doubles the width; every other choice keeps it. */
  function WidthFactor(a: Option<Activation>): (r: nat)
    ensures r == 2 <==> a == Some(Crelu)
    ensures r == 1 <==> a != Some(Crelu)
  {
    if a == Some(Crelu) then 2 else 1
  }

  /** The key under which `_non_linearities` lists a choice; `None` is "no activation". */
  function ActivationKey(a: Option<Activation>): string {
    match a
    case None => "none"
    case Some(Sigmoid) => "sigmoid"
    case Some(Tanh) => "tanh"
    case Some(Relu) => "relu"
    case Some(Relu6) => "relu6"
    case Some(Crelu) => "crelu"
    case Some(Elu) => "elu"
    case Some(Selu) => "selu"
    case Some(Softplus) => "softplus"
    case Some(Softsign) => "softsign"
  }

  function OptimizerKey(k: OptimizerKind): string {
    match k
    case Adadelta => "Adadelta"
    case Adagrad => "Adagrad"
    case Adam => "Adam"
    case GradientDescent => "GradientDescent"
    case ProximalGradientDescent => "ProximalGradientDescent"
    case ProximalAdagrad => "ProximalAdagrad"
    case RMSProp => "RMSProp"
  }

  function LossKey(k: LossKind): string {
    match k
    case AbsoluteDifference => "linear"
    case MeanSquaredError => "mse"
    case HuberLoss => "huber"
  }

  /** `_non_linearities[name]`. */
  function LookupActivation(name: string): (r: Result<Option<Activation>, ConfigError>)
    ensures r.Ok? <==> name in ActivationNames
    ensures r.Ok? ==> ActivationKey(r.value) == name
    ensures r.Err? ==> r.error == UnknownActivation(name)
  {
    if name == "none" then Ok(None)
    else if name == "sigmoid" then Ok(Some(Sigmoid))
    else if name == "tanh" then Ok(Some(Tanh))
    else if name == "relu" then Ok(Some(Relu))
    else if name == "relu6" then Ok(Some(Relu6))
    else if name == "crelu" then Ok(Some(Crelu))
    else if name == "elu" then Ok(Some(Elu))
    else if name == "selu" then Ok(Some(Selu))
    else if name == "softplus" then Ok(Some(Softplus))
    else if name == "softsign" then Ok(Some(Softsign))
    else Err(UnknownActivation(name))
  }

  /** `_optimizers[name]`. */
  function LookupOptimizer(name: string): (r: Result<OptimizerKind, ConfigError>)
    ensures r.Ok? <==> name in OptimizerNames
    ensures r.Ok? ==> OptimizerKey(r.value) == name
    ensures r.Err? ==> r.error == UnknownOptimizer(name)
  {
    if name == "Adadelta" then Ok(Adadelta)
    else if name == "Adagrad" then Ok(Adagrad)
    else if name == "Adam" then Ok(Adam)
    else if name == "GradientDescent" then Ok(GradientDescent)
    else if name == "ProximalGradientDescent" then Ok(ProximalGradientDescent)
    else if name == "ProximalAdagrad" then Ok(ProximalAdagrad)
    else if name == "RMSProp" then Ok(RMSProp)
    else Err(UnknownOptimizer(name))
  }

  /** `_loss_fn[name]`. */
  function LookupLoss(name: string): (r: Result<LossKind, ConfigError>)
    ensures r.Ok? <==> name in LossNames
    ensures r.Ok? ==> LossKey(r.value) == name
    ensures r.Err? ==> r.error == UnknownLoss(name)
  {
    if name == "linear" then Ok(AbsoluteDifference)
    else if name == "mse" then Ok(MeanSquaredError)
    else if name == "huber" then Ok(HuberLoss)
    else Err(UnknownLoss(name))
  }

  /** Every activation choice is listed, under its own key: the table is a bijection
      between `ActivationNames` and the choices, so the ten names denote ten distinct
      choices and `'none'` alone denotes no activation. */
  lemma ActivationTableBijective(a: Option<Activation>, b: Option<Activation>)
    ensures LookupActivation(ActivationKey(a)) == Ok(a)
    ensures ActivationKey(a) == ActivationKey(b) ==> a == b
    ensures a.None? <==> LookupActivation(ActivationKey(a)) == Ok(None)
  {
  }

  lemma OptimizerTableBijective(a: OptimizerKind, b: OptimizerKind)
    ensures LookupOptimizer(OptimizerKey(a)) == Ok(a)
    ensures OptimizerKey(a) == OptimizerKey(b) ==> a == b
  {
  }

  lemma LossTableBijective(a: LossKind, b: LossKind)
    ensures LookupLoss(LossKey(a)) == Ok(a)
    ensures LossKey(a) == LossKey(b) ==> a == b
  {
  }
}
