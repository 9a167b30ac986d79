/** Stop policies: after an attempt has failed, each decides from that
    attempt's ordinal and elapsed time whether the retrying ends. */
module StopStrategies {
  import opened JavaLang
  import opened TimeUnits
  import opened Attempts
  import opened Preconditions

  datatype StopStrategy =
    | NeverStopStrategy
    | StopAfterAttemptStrategy(maxAttemptNumber: Int)
    | StopAfterDelayStrategy(maxDelay: Long)

  /** The policies the validating constructors can produce. */
  predicate Valid(s: StopStrategy) {
    match s
    case NeverStopStrategy => true
    case StopAfterAttemptStrategy(n) => n >= 1
    case StopAfterDelayStrategy(d) => d >= 0
  }

  /** `shouldStop(failedAttempt)`: the never-stop policy never stops, one
      allowing a single attempt stops after the first, and one with no time
      budget stops at once. */
  function ShouldStop<V>(s: StopStrategy, failedAttempt: Attempt<V>): (r: bool)
    ensures r ==> !s.NeverStopStrategy?
    ensures s.StopAfterAttemptStrategy? && s.maxAttemptNumber <= 1 ==> r
    ensures s.StopAfterDelayStrategy? && s.maxDelay <= 0 ==> r
  {
    match s
    case NeverStopStrategy => false
    case StopAfterAttemptStrategy(n) => failedAttempt.attemptNumber >= n
    case StopAfterDelayStrategy(d) => failedAttempt.delaySinceFirstAttempt >= d
  }

  // ---------------------------------------------------------------------
  // Validating constructors.

  /** `new StopAfterAttemptStrategy(maxAttemptNumber)`. */
  function NewStopAfterAttemptStrategy(maxAttemptNumber: Int): (r: Result<StopStrategy>)
    ensures r.Ok? <==> maxAttemptNumber >= 1
    ensures r.Ok? ==> Valid(r.value) && r.value == StopAfterAttemptStrategy(maxAttemptNumber)
    ensures r.Err? ==> r.error.IllegalArgument?
  {
    if maxAttemptNumber >= 1 then Ok(StopAfterAttemptStrategy(maxAttemptNumber))
    else Err(IllegalArgument("maxAttemptNumber must be >= 1"))
  }

  /** `new StopAfterDelayStrategy(maxDelay)`. */
  function NewStopAfterDelayStrategy(maxDelay: Long): (r: Result<StopStrategy>)
    ensures r.Ok? <==> maxDelay >= 0
    ensures r.Ok? ==> Valid(r.value) && r.value == StopAfterDelayStrategy(maxDelay)
    ensures r.Err? ==> r.error.IllegalArgument?
  {
    if maxDelay >= 0 then Ok(StopAfterDelayStrategy(maxDelay))
    else Err(IllegalArgument("maxDelay must be >= 0"))
  }

  // ---------------------------------------------------------------------
  // Factories.

  /** The shared `NEVER_STOP` instance. */
  const NEVER_STOP: StopStrategy := NeverStopStrategy

  /** `neverStop()`. */
  function NeverStop(): (r: StopStrategy)
    ensures Valid(r) && r.NeverStopStrategy?
  {
    NEVER_STOP
  }

  /** `stopAfterAttempt(attemptNumber)`. */
  function StopAfterAttempt(attemptNumber: Int): (r: Result<StopStrategy>)
    ensures r.Ok? <==> attemptNumber >= 1
    ensures r.Ok? ==> Valid(r.value) && r.value.StopAfterAttemptStrategy?
                      && r.value.maxAttemptNumber == attemptNumber
    ensures r.Err? ==> r.error.IllegalArgument?
  {
    NewStopAfterAttemptStrategy(attemptNumber)
  }

  /** `stopAfterDelay(duration, timeUnit)`: a null unit is refused first, then
      the duration in milliseconds must not be negative. */
  function StopAfterDelay(duration: Long, timeUnit: Option<TimeUnit>): (r: Result<StopStrategy>)
    ensures timeUnit.None? ==> r.Err? && r.error.NullPointer?
    ensures timeUnit.Some? ==> (r.Ok? <==> ToMillis(duration, timeUnit.value) >= 0)
    ensures timeUnit.Some? && duration >= 0 ==> r.Ok?
    ensures r.Ok? ==> Valid(r.value) && r.value.StopAfterDelayStrategy?
                      && r.value.maxDelay == ToMillis(duration, timeUnit.value)
    ensures timeUnit.Some? && r.Err? ==> r.error.IllegalArgument?
  {
    if timeUnit.None? then Err(NullPointer("The time unit may not be null"))
    else NewStopAfterDelayStrategy(ToMillis(duration, timeUnit.value))
  }

  /** The deprecated `stopAfterDelay(delayInMillis)`: the milliseconds
      overload of the factory above. */
  function StopAfterDelayMillis(delayInMillis: Long): (r: Result<StopStrategy>)
    ensures r.Ok? <==> delayInMillis >= 0
    ensures r.Ok? ==> r.value == StopAfterDelayStrategy(delayInMillis)
    ensures r.Err? ==> r.error.IllegalArgument?
  {
    StopAfterDelay(delayInMillis, Some(MILLISECONDS))
  }

  // ---------------------------------------------------------------------
  // Properties.

  /** The never-stop policy keeps retrying after every attempt. */
  lemma NeverStopNeverStops<V>(a: Attempt<V>)
    ensures !ShouldStop(NeverStop(), a)
  {
  }

  /** Stopping depends only on the attempt's ordinal and elapsed time, not on
      whether it returned a result or threw. */
  lemma ShouldStopIgnoresOutcome<V>(s: StopStrategy, a: Attempt<V>, b: Attempt<V>)
    requires a.attemptNumber == b.attemptNumber
    requires a.delaySinceFirstAttempt == b.delaySinceFirstAttempt
    ensures ShouldStop(s, a) == ShouldStop(s, b)
  {
  }

  /** Every policy is monotone: a policy that stops after an attempt also
      stops after any later attempt that has taken at least as long. */
  lemma ShouldStopMonotone<V>(s: StopStrategy, a: Attempt<V>, b: Attempt<V>)
    requires a.attemptNumber <= b.attemptNumber
    requires a.delaySinceFirstAttempt <= b.delaySinceFirstAttempt
    ensures ShouldStop(s, a) ==> ShouldStop(s, b)
  {
  }

  /** `stopAfterAttempt(n)` allows exactly `n` attempts: it keeps retrying
      after attempts 1 to n - 1 and stops after attempt n and every later
      one. */
  lemma StopAfterAttemptAllowsExactlyN<V>(n: Int, a: Attempt<V>)
    requires StopAfterAttempt(n).Ok?
    ensures a.attemptNumber < n ==> !ShouldStop(StopAfterAttempt(n).value, a)
    ensures a.attemptNumber >= n ==> ShouldStop(StopAfterAttempt(n).value, a)
  {
  }

  /** `stopAfterAttempt(3)`: attempts 1 and 2 are retried, attempt 3 and any
      later one end the retrying. */
  lemma StopAfterThreeAttempts<V>(v: V, k: AttemptNumber, d: Delay)
    ensures StopAfterAttempt(3).Ok?
    ensures !ShouldStop(StopAfterAttempt(3).value, ResultAttempt(v, 1, d))
    ensures !ShouldStop(StopAfterAttempt(3).value, ResultAttempt(v, 2, d))
    ensures k >= 3 <==> ShouldStop(StopAfterAttempt(3).value, ResultAttempt(v, k, d))
  {
  }

  /** Since fewer than one attempt is refused at construction, a policy built
      by `stopAfterAttempt` stops after the first attempt only when it allows
      exactly one. */
  lemma FirstAttemptStopsOnlyForOne<V>(n: Int, a: Attempt<V>)
    requires StopAfterAttempt(n).Ok?
    requires a.attemptNumber == 1
    ensures ShouldStop(StopAfterAttempt(n).value, a) <==> n == 1
  {
  }

  /** `stopAfterDelay(d, unit)` stops exactly when the time since the first
      attempt has reached `d` converted to milliseconds. */
  lemma StopAfterDelayStopsAtDeadline<V>(duration: Long, unit: TimeUnit, a: Attempt<V>)
    requires StopAfterDelay(duration, Some(unit)).Ok?
    ensures ShouldStop(StopAfterDelay(duration, Some(unit)).value, a)
            <==> a.delaySinceFirstAttempt >= ToMillis(duration, unit)
  {
  }

  /** A zero delay budget stops after every attempt, the first included. */
  lemma StopAfterZeroDelayAlwaysStops<V>(unit: TimeUnit, a: Attempt<V>)
    ensures StopAfterDelay(0, Some(unit)).Ok?
    ensures ShouldStop(StopAfterDelay(0, Some(unit)).value, a)
  {
  }

  /** `stopAfterDelay(1, SECONDS)` keeps retrying before 1000 ms and stops
      from then on. */
  lemma StopAfterOneSecond<V>(v: V, k: AttemptNumber, d: Delay)
    ensures StopAfterDelay(1, Some(SECONDS)).Ok?
    ensures ShouldStop(StopAfterDelay(1, Some(SECONDS)).value, ResultAttempt(v, k, d)) <==> d >= 1000
  {
  }

  /** The deprecated milliseconds overload and the unit-taking factory with
      `MILLISECONDS` build the same policy or fail alike. */
  lemma StopAfterDelayMillisAgrees(delayInMillis: Long)
    ensures StopAfterDelayMillis(delayInMillis) == StopAfterDelay(delayInMillis, Some(MILLISECONDS))
  {
  }

  /** Every valid policy other than never-stop ends the retrying eventually:
      at the last representable attempt, long enough after the first. */
  lemma BoundedPoliciesEventuallyStop<V>(s: StopStrategy, v: V)
    requires Valid(s) && !s.NeverStopStrategy?
    ensures ShouldStop(s, ResultAttempt(v, LONG_MAX, LONG_MAX))
  {
  }
}
