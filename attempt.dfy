/** One invocation's outcome, as every policy receives it. The retry loop that
    creates attempts is not part of this model; here an attempt is only an
    input value. */
module Attempts {
  import opened JavaLang

  /** `getAttemptNumber()`: 1 for the first invocation. */
  type AttemptNumber = n: int | 1 <= n <= LONG_MAX witness 1

  /** `getDelaySinceFirstAttempt()`, in milliseconds. */
  type Delay = d: int | 0 <= d <= LONG_MAX

  /** An attempt either returned a value or threw a cause; both carry the
      attempt's ordinal and the time elapsed since the first attempt began. */
  datatype Attempt<+V> =
    | ResultAttempt(result: V, attemptNumber: AttemptNumber, delaySinceFirstAttempt: Delay)
    | ExceptionAttempt(cause: ThrowableObject, attemptNumber: AttemptNumber, delaySinceFirstAttempt: Delay)
  {
    predicate HasResult() { ResultAttempt? }

    predicate HasException() { ExceptionAttempt? }
  }
}
