/** The constructor's hyperparameters and the assertions that validate them. */
module Configuration {
  import opened Wrappers
  import opened Exceptions

  datatype Hyperparameters = Hyperparameters(
    factors: int,
    regularization: real,
    sigma: real,
    learningRate: real,
    learningSchedule: string,
    learningExponent: real)

  /** The defaults of the constructor's keyword arguments. */
  const Defaults := Hyperparameters(10, 0.01, 0.1, 0.1, "constant", 0.25)

  /** The hyperparameters, in the order the constructor checks them. */
  datatype Parameter = Factors | Regularization | Sigma | LearningRate | LearningSchedule | LearningExponent

  /** The position of a parameter's assertion among the constructor's checks. */
  function CheckOrder(p: Parameter): nat {
    match p
    case Factors => 0
    case Regularization => 1
    case Sigma => 2
    case LearningRate => 3
    case LearningSchedule => 4
    case LearningExponent => 5
  }

  /** The condition the constructor asserts about one hyperparameter. */
  predicate Acceptable(h: Hyperparameters, p: Parameter) {
    match p
    case Factors => h.factors >= 1
    case Regularization => h.regularization >= 0.0
    case Sigma => h.sigma > 0.0
    case LearningRate => h.learningRate > 0.0
    case LearningSchedule => h.learningSchedule == "constant" || h.learningSchedule == "invscaling"
    case LearningExponent => h.learningExponent > 0.0
  }

  /** The message of the assertion about one hyperparameter. */
  function Message(p: Parameter): string {
    match p
    case Factors => "[factors] must be a positive integer"
    case Regularization => "[regularization] must be a non-negative float"
    case Sigma => "[sigma] must be a positive float"
    case LearningRate => "[learning_rate] must be a positive float"
    case LearningSchedule => "[learning_schedule] must be in ('constant', 'invscaling')"
    case LearningExponent => "[learning_exponent] must be a positive float"
  }

  /** All six assertions hold. */
  predicate AllAcceptable(h: Hyperparameters) {
    && Acceptable(h, Factors) && Acceptable(h, Regularization) && Acceptable(h, Sigma)
    && Acceptable(h, LearningRate) && Acceptable(h, LearningSchedule) && Acceptable(h, LearningExponent)
  }

  /**
   * The first assertion that fails, in the constructor's order, or `None`
   * when all of them hold.
   */
  function FirstViolation(h: Hyperparameters): (r: Option<Parameter>)
    ensures r.None? <==> forall p :: Acceptable(h, p)
    ensures r.Some? ==> !Acceptable(h, r.value) && forall q :: CheckOrder(q) < CheckOrder(r.value) ==> Acceptable(h, q)
  {
    if !Acceptable(h, Factors) then Some(Factors)
    else if !Acceptable(h, Regularization) then Some(Regularization)
    else if !Acceptable(h, Sigma) then Some(Sigma)
    else if !Acceptable(h, LearningRate) then Some(LearningRate)
    else if !Acceptable(h, LearningSchedule) then Some(LearningSchedule)
    else if !Acceptable(h, LearningExponent) then Some(LearningExponent)
    else None
  }

  /** The constructor's validation: the AssertionError of the first failing check, if any. */
  function Validate(h: Hyperparameters): (r: Option<Error>)
    ensures r.None? <==> AllAcceptable(h)
    ensures r.Some? ==> FirstViolation(h).Some? && r.value == AssertionError(Message(FirstViolation(h).value))
    ensures r.Some? ==> exists p :: !Acceptable(h, p) && r.value == AssertionError(Message(p))
  {
    match FirstViolation(h)
    case None => None
    case Some(p) => Some(AssertionError(Message(p)))
  }

  /** The default hyperparameters pass validation. */
  lemma DefaultsAreValid()
    ensures Validate(Defaults) == None
  {
  }
}
