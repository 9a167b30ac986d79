/** The wait policies of `WaitStrategies`: each maps the attempt that just
    failed to the number of milliseconds to sleep before the next one.

    Three policies are modelled with their evidently intended arithmetic
    rather than Java's wrapping `long` arithmetic (see module WaitFindings for
    the code as written): the random draw is non-negative, the Fibonacci
    product is capped exactly, and a join saturates instead of wrapping. */
module WaitStrategies {
  import opened JavaLang
  import opened TimeUnits
  import opened Attempts
  import opened Preconditions

  /** The policy objects the factories return; one constructor per private
      class of `WaitStrategies`. */
  datatype WaitStrategy =
    | FixedWaitStrategy(sleepTime: Long)
    | RandomWaitStrategy(minimum: Long, maximum: Long)
    | IncrementingWaitStrategy(initialSleepTime: Long, increment: Long)
    | ExponentialWaitStrategy(multiplier: Long, maximumWait: Long)
    | FibonacciWaitStrategy(multiplier: Long, maximumWait: Long)
    | CompositeWaitStrategy(waitStrategies: seq<WaitStrategy>)
    | ExceptionWaitStrategy(exceptionClass: ClassTag, sleepFunction: ThrowableObject -> Long)

  /** What each class's constructor checks before it builds the object; the
      parts of a join were checked when they were built. */
  predicate Valid(w: WaitStrategy) {
    match w
    case FixedWaitStrategy(sleepTime) => sleepTime >= 0
    case RandomWaitStrategy(minimum, maximum) => minimum >= 0 && maximum > minimum
    case IncrementingWaitStrategy(initialSleepTime, _) => initialSleepTime >= 0
    case ExponentialWaitStrategy(multiplier, maximumWait) =>
      multiplier > 0 && maximumWait >= 0 && multiplier < maximumWait
    case FibonacciWaitStrategy(multiplier, maximumWait) =>
      multiplier > 0 && maximumWait >= 0 && multiplier < maximumWait
    case CompositeWaitStrategy(ws) => |ws| > 0 && forall i :: 0 <= i < |ws| ==> Valid(ws[i])
    case ExceptionWaitStrategy(_, _) => true
  }

  /** The exception-keyed functions inside `w` never return a negative delay
      (the only way a valid policy can produce one). */
  ghost predicate NonNegativeDelays(w: WaitStrategy) {
    match w
    case CompositeWaitStrategy(ws) => forall i :: 0 <= i < |ws| ==> NonNegativeDelays(ws[i])
    case ExceptionWaitStrategy(_, f) => forall c :: f(c) >= 0
    case _ => true
  }

  // ---------------------------------------------------------------------
  // Random draws. Every random policy draws one number per computation; the
  // draws of a join are consumed left to right.

  function DrawCount(w: WaitStrategy): nat
    decreases w, 1
  {
    match w
    case RandomWaitStrategy(_, _) => 1
    case CompositeWaitStrategy(ws) => DrawsOf(ws)
    case _ => 0
  }

  function DrawsOf(ws: seq<WaitStrategy>): nat
    decreases ws, 0
  {
    if ws == [] then 0 else DrawsOf(ws[..|ws| - 1]) + DrawCount(ws[|ws| - 1])
  }

  lemma {:induction false} DrawsOfPrefix(ws: seq<WaitStrategy>, k: nat)
    requires k <= |ws|
    ensures DrawsOf(ws[..k]) <= DrawsOf(ws)
    decreases |ws|
  {
    if k < |ws| {
      var init := ws[..|ws| - 1];
      assert init[..k] == ws[..k];
      DrawsOfPrefix(init, k);
    } else {
      assert ws[..k] == ws;
    }
  }

  // ---------------------------------------------------------------------
  // computeSleepTime, one function per policy.

  /** Random wait: `minimum` plus a non-negative draw reduced modulo the
      width of the range. */
  function RandomSleep(minimum: Long, maximum: Long, draw: nat): (r: Long)
    requires 0 <= minimum < maximum
    ensures minimum <= r < maximum
  {
    minimum + draw % (maximum - minimum)
  }

  /** Incrementing wait: `initialSleepTime + increment * (attemptNumber - 1)`
      in wrapping `long` arithmetic, with a negative result replaced by 0. */
  function IncrementingSleep(initialSleepTime: Long, increment: Long, attemptNumber: AttemptNumber): (r: Long)
    ensures r >= 0
    ensures var step := increment * (attemptNumber - 1);
            LONG_MIN <= step <= LONG_MAX && LONG_MIN <= initialSleepTime + step <= LONG_MAX ==>
              r == if initialSleepTime + step >= 0 then initialSleepTime + step else 0
  {
    var result := Wrap(initialSleepTime + Wrap(increment * (attemptNumber - 1)));
    if result >= 0 then result else 0
  }

  function Pow2(n: nat): (r: nat)
    ensures r >= 1
  {
    if n == 0 then 1 else 2 * Pow2(n - 1)
  }

  /** Exponential wait: `multiplier * 2^attemptNumber`, capped at
      `maximumWait`. The source's final guard against a negative result
      never fires: the product of a positive multiplier and a power of two is
      positive, and `Math.round` saturates instead of going negative. */
  function ExponentialSleep(multiplier: Long, maximumWait: Long, attemptNumber: AttemptNumber): (r: Long)
    requires multiplier > 0 && maximumWait >= 0
    ensures 0 <= r <= maximumWait
    ensures multiplier * Pow2(attemptNumber) <= maximumWait ==> r == multiplier * Pow2(attemptNumber)
    ensures multiplier * Pow2(attemptNumber) > maximumWait ==> r == maximumWait
  {
    var result := multiplier * Pow2(attemptNumber);
    if result > maximumWait then maximumWait else result
  }

  /** The Fibonacci numbers: Fib(0) = 0, Fib(1) = 1. */
  function Fib(n: nat): nat {
    if n < 2 then n else Fib(n - 1) + Fib(n - 2)
  }

  /** `fib(n)` as the source computes it: a loop that carries the previous two
      numbers instead of recursing. */
  method FibLoop(n: nat) returns (result: nat)
    ensures result == Fib(n)
  {
    if n == 0 { return 0; }
    if n == 1 { return 1; }
    var prevPrev: nat := 0;
    var prev: nat := 1;
    result := 0;
    var i := 2;
    while i <= n
      invariant 2 <= i <= n + 1
      invariant prev == Fib(i - 1) && prevPrev == Fib(i - 2)
      invariant i > 2 ==> result == prev
    {
      result := prev + prevPrev;
      prevPrev := prev;
      prev := result;
      i := i + 1;
    }
  }

  /** Fibonacci wait: `multiplier * fib(attemptNumber)`, capped at
      `maximumWait`; exact, so the source's overflow guards are not needed. */
  function FibonacciSleep(multiplier: Long, maximumWait: Long, attemptNumber: AttemptNumber): (r: Long)
    requires multiplier > 0 && maximumWait >= 0
    ensures 0 <= r <= maximumWait
    ensures multiplier * Fib(attemptNumber) <= maximumWait ==> r == multiplier * Fib(attemptNumber)
    ensures multiplier * Fib(attemptNumber) > maximumWait ==> r == maximumWait
  {
    var result := multiplier * Fib(attemptNumber);
    if result > maximumWait then maximumWait else result
  }

  /** Exception wait: the configured function of the cause when the attempt
      threw an instance of the configured class, 0 otherwise. */
  function ExceptionSleep<V>(exceptionClass: ClassTag, f: ThrowableObject -> Long, a: Attempt<V>): (r: Long)
    ensures (forall c :: f(c) >= 0) ==> r >= 0
    ensures a.HasResult() ==> r == 0
  {
    if a.HasException() && IsSubtype(a.cause.cls, exceptionClass) then f(a.cause) else 0
  }

  /** `computeSleepTime(attempt)` of any policy, given the random draws it
      consumes. */
  function SleepTime<V>(w: WaitStrategy, a: Attempt<V>, draws: seq<nat>): (r: Long)
    requires Valid(w)
    requires |draws| >= DrawCount(w)
    ensures NonNegativeDelays(w) ==> r >= 0
    decreases w, 1
  {
    match w
    case FixedWaitStrategy(sleepTime) => sleepTime
    case RandomWaitStrategy(minimum, maximum) => RandomSleep(minimum, maximum, draws[0])
    case IncrementingWaitStrategy(initialSleepTime, increment) =>
      IncrementingSleep(initialSleepTime, increment, a.attemptNumber)
    case ExponentialWaitStrategy(multiplier, maximumWait) =>
      ExponentialSleep(multiplier, maximumWait, a.attemptNumber)
    case FibonacciWaitStrategy(multiplier, maximumWait) =>
      FibonacciSleep(multiplier, maximumWait, a.attemptNumber)
    case CompositeWaitStrategy(ws) => Saturate(JoinSum(ws, a, draws))
    case ExceptionWaitStrategy(exceptionClass, f) => ExceptionSleep(exceptionClass, f, a)
  }

  /** The exact ordered sum of the sleep times of `ws`, the i-th policy
      consuming the draws after those of the policies before it. */
  function JoinSum<V>(ws: seq<WaitStrategy>, a: Attempt<V>, draws: seq<nat>): (r: int)
    requires forall i :: 0 <= i < |ws| ==> Valid(ws[i])
    requires |draws| >= DrawsOf(ws)
    ensures (forall i :: 0 <= i < |ws| ==> NonNegativeDelays(ws[i])) ==> r >= 0
    decreases ws, 0
  {
    if ws == [] then 0
    else
      var init := ws[..|ws| - 1];
      JoinSum(init, a, draws) + SleepTime(ws[|ws| - 1], a, draws[DrawsOf(init)..])
  }

  /** `CompositeWaitStrategy.computeSleepTime`: accumulate the sleep times of
      the parts in order, saturating at the `long` bounds. */
  method CompositeSleepTime<V>(ws: seq<WaitStrategy>, a: Attempt<V>, draws: seq<nat>) returns (waitTime: Long)
    requires Valid(CompositeWaitStrategy(ws))
    requires |draws| >= DrawsOf(ws)
    ensures waitTime == SleepTime(CompositeWaitStrategy(ws), a, draws)
  {
    var total := 0;
    var i := 0;
    while i < |ws|
      invariant 0 <= i <= |ws|
      invariant DrawsOf(ws[..i]) <= DrawsOf(ws)
      invariant total == JoinSum(ws[..i], a, draws)
    {
      assert ws[..i + 1][..i] == ws[..i];
      DrawsOfPrefix(ws, i + 1);
      total := total + SleepTime(ws[i], a, draws[DrawsOf(ws[..i])..]);
      i := i + 1;
    }
    assert ws[..i] == ws;
    waitTime := Saturate(total);
  }

  // ---------------------------------------------------------------------
  // The constructors' argument checks.

  function NewFixedWaitStrategy(sleepTime: Long): (r: Result<WaitStrategy>)
    ensures r.Ok? <==> sleepTime >= 0
    ensures r.Ok? ==> Valid(r.value) && r.value == FixedWaitStrategy(sleepTime)
    ensures r.Err? ==> r.error.IllegalArgument?
  {
    if sleepTime >= 0 then Ok(FixedWaitStrategy(sleepTime))
    else Err(IllegalArgument("sleepTime must be >= 0"))
  }

  function NewRandomWaitStrategy(minimum: Long, maximum: Long): (r: Result<WaitStrategy>)
    ensures r.Ok? <==> 0 <= minimum < maximum
    ensures r.Ok? ==> Valid(r.value) && r.value == RandomWaitStrategy(minimum, maximum)
    ensures r.Err? ==> r.error.IllegalArgument?
  {
    if minimum < 0 then Err(IllegalArgument("minimum must be >= 0"))
    else if maximum <= minimum then Err(IllegalArgument("maximum must be > minimum"))
    else Ok(RandomWaitStrategy(minimum, maximum))
  }

  function NewIncrementingWaitStrategy(initialSleepTime: Long, increment: Long): (r: Result<WaitStrategy>)
    ensures r.Ok? <==> initialSleepTime >= 0
    ensures r.Ok? ==> Valid(r.value) && r.value == IncrementingWaitStrategy(initialSleepTime, increment)
    ensures r.Err? ==> r.error.IllegalArgument?
  {
    if initialSleepTime >= 0 then Ok(IncrementingWaitStrategy(initialSleepTime, increment))
    else Err(IllegalArgument("initialSleepTime must be >= 0"))
  }

  function NewExponentialWaitStrategy(multiplier: Long, maximumWait: Long): (r: Result<WaitStrategy>)
    ensures r.Ok? <==> 0 < multiplier < maximumWait
    ensures r.Ok? ==> Valid(r.value) && r.value == ExponentialWaitStrategy(multiplier, maximumWait)
    ensures r.Err? ==> r.error.IllegalArgument?
  {
    if multiplier <= 0 then Err(IllegalArgument("multiplier must be > 0"))
    else if maximumWait < 0 then Err(IllegalArgument("maximumWait must be >= 0"))
    else if multiplier >= maximumWait then Err(IllegalArgument("multiplier must be < maximumWait"))
    else Ok(ExponentialWaitStrategy(multiplier, maximumWait))
  }

  function NewFibonacciWaitStrategy(multiplier: Long, maximumWait: Long): (r: Result<WaitStrategy>)
    ensures r.Ok? <==> 0 < multiplier < maximumWait
    ensures r.Ok? ==> Valid(r.value) && r.value == FibonacciWaitStrategy(multiplier, maximumWait)
    ensures r.Err? ==> r.error.IllegalArgument?
  {
    if multiplier <= 0 then Err(IllegalArgument("multiplier must be > 0"))
    else if maximumWait < 0 then Err(IllegalArgument("maximumWait must be >= 0"))
    else if multiplier >= maximumWait then Err(IllegalArgument("multiplier must be < maximumWait"))
    else Ok(FibonacciWaitStrategy(multiplier, maximumWait))
  }

  function NewCompositeWaitStrategy(waitStrategies: seq<WaitStrategy>): (r: Result<WaitStrategy>)
    ensures r.Ok? <==> |waitStrategies| > 0
    ensures r.Ok? ==> r.value == CompositeWaitStrategy(waitStrategies)
    ensures r.Err? ==> r.error.IllegalState?
  {
    if |waitStrategies| > 0 then Ok(CompositeWaitStrategy(waitStrategies))
    else Err(IllegalState("Need at least one wait strategy"))
  }

  // ---------------------------------------------------------------------
  // The public factories. A `null` time unit, class or function is `None`.

  const NO_WAIT_STRATEGY: WaitStrategy := FixedWaitStrategy(0)

  function NoWait(): (w: WaitStrategy)
    ensures Valid(w) && NonNegativeDelays(w) && DrawCount(w) == 0
  {
    NO_WAIT_STRATEGY
  }

  function FixedWait(sleepTime: Long, timeUnit: Option<TimeUnit>): (r: Result<WaitStrategy>)
    ensures timeUnit.None? ==> r.Err? && r.error.NullPointer?
    ensures timeUnit.Some? ==> (r.Ok? <==> ToMillis(sleepTime, timeUnit.value) >= 0)
    ensures timeUnit.Some? && sleepTime >= 0 ==> r.Ok?
    ensures r.Ok? ==> Valid(r.value) && r.value == FixedWaitStrategy(ToMillis(sleepTime, timeUnit.value))
    ensures timeUnit.Some? && r.Err? ==> r.error.IllegalArgument?
  {
    if timeUnit.None? then Err(NullPointer("The time unit may not be null"))
    else NewFixedWaitStrategy(ToMillis(sleepTime, timeUnit.value))
  }

  function RandomWait(maximumTime: Long, timeUnit: Option<TimeUnit>): (r: Result<WaitStrategy>)
    ensures timeUnit.None? ==> r.Err? && r.error.NullPointer?
    ensures timeUnit.Some? ==> (r.Ok? <==> ToMillis(maximumTime, timeUnit.value) > 0)
    ensures r.Ok? ==> Valid(r.value) && r.value == RandomWaitStrategy(0, ToMillis(maximumTime, timeUnit.value))
    ensures timeUnit.Some? && r.Err? ==> r.error.IllegalArgument?
  {
    if timeUnit.None? then Err(NullPointer("The time unit may not be null"))
    else NewRandomWaitStrategy(0, ToMillis(maximumTime, timeUnit.value))
  }

  function RandomWaitBetween(minimumTime: Long, minimumTimeUnit: Option<TimeUnit>,
                             maximumTime: Long, maximumTimeUnit: Option<TimeUnit>): (r: Result<WaitStrategy>)
    ensures minimumTimeUnit.None? || maximumTimeUnit.None? ==> r.Err? && r.error.NullPointer?
    ensures minimumTimeUnit.Some? && maximumTimeUnit.Some? ==>
              (r.Ok? <==> 0 <= ToMillis(minimumTime, minimumTimeUnit.value) < ToMillis(maximumTime, maximumTimeUnit.value))
    ensures r.Ok? ==> Valid(r.value)
                      && r.value == RandomWaitStrategy(ToMillis(minimumTime, minimumTimeUnit.value),
                                                       ToMillis(maximumTime, maximumTimeUnit.value))
    ensures minimumTimeUnit.Some? && maximumTimeUnit.Some? && r.Err? ==> r.error.IllegalArgument?
  {
    if minimumTimeUnit.None? then Err(NullPointer("The minimum time unit may not be null"))
    else if maximumTimeUnit.None? then Err(NullPointer("The maximum time unit may not be null"))
    else NewRandomWaitStrategy(ToMillis(minimumTime, minimumTimeUnit.value),
                               ToMillis(maximumTime, maximumTimeUnit.value))
  }

  function IncrementingWait(initialSleepTime: Long, initialSleepTimeUnit: Option<TimeUnit>,
                            increment: Long, incrementTimeUnit: Option<TimeUnit>): (r: Result<WaitStrategy>)
    ensures initialSleepTimeUnit.None? || incrementTimeUnit.None? ==> r.Err? && r.error.NullPointer?
    ensures initialSleepTimeUnit.Some? && incrementTimeUnit.Some? ==>
              (r.Ok? <==> ToMillis(initialSleepTime, initialSleepTimeUnit.value) >= 0)
    ensures r.Ok? ==> Valid(r.value)
                      && r.value == IncrementingWaitStrategy(ToMillis(initialSleepTime, initialSleepTimeUnit.value),
                                                             ToMillis(increment, incrementTimeUnit.value))
    ensures initialSleepTimeUnit.Some? && incrementTimeUnit.Some? && r.Err? ==> r.error.IllegalArgument?
  {
    if initialSleepTimeUnit.None? then Err(NullPointer("The initial sleep time unit may not be null"))
    else if incrementTimeUnit.None? then Err(NullPointer("The increment time unit may not be null"))
    else NewIncrementingWaitStrategy(ToMillis(initialSleepTime, initialSleepTimeUnit.value),
                                     ToMillis(increment, incrementTimeUnit.value))
  }

  /** `exponentialWait()`: multiplier 1, no cap below `Long.MAX_VALUE`. */
  function ExponentialWait(): (r: Result<WaitStrategy>)
    ensures r.Ok? && Valid(r.value)
    ensures r.value == ExponentialWaitStrategy(1, LONG_MAX)
  {
    NewExponentialWaitStrategy(1, LONG_MAX)
  }

  function ExponentialWaitUpTo(maximumTime: Long, maximumTimeUnit: Option<TimeUnit>): (r: Result<WaitStrategy>)
    ensures maximumTimeUnit.None? ==> r.Err? && r.error.NullPointer?
    ensures maximumTimeUnit.Some? ==> (r.Ok? <==> ToMillis(maximumTime, maximumTimeUnit.value) > 1)
    ensures r.Ok? ==> Valid(r.value) && r.value == ExponentialWaitStrategy(1, ToMillis(maximumTime, maximumTimeUnit.value))
    ensures maximumTimeUnit.Some? && r.Err? ==> r.error.IllegalArgument?
  {
    if maximumTimeUnit.None? then Err(NullPointer("The maximum time unit may not be null"))
    else NewExponentialWaitStrategy(1, ToMillis(maximumTime, maximumTimeUnit.value))
  }

  function ExponentialWaitScaled(multiplier: Long, maximumTime: Long, maximumTimeUnit: Option<TimeUnit>): (r: Result<WaitStrategy>)
    ensures maximumTimeUnit.None? ==> r.Err? && r.error.NullPointer?
    ensures maximumTimeUnit.Some? ==> (r.Ok? <==> 0 < multiplier < ToMillis(maximumTime, maximumTimeUnit.value))
    ensures r.Ok? ==> Valid(r.value)
                      && r.value == ExponentialWaitStrategy(multiplier, ToMillis(maximumTime, maximumTimeUnit.value))
    ensures maximumTimeUnit.Some? && r.Err? ==> r.error.IllegalArgument?
  {
    if maximumTimeUnit.None? then Err(NullPointer("The maximum time unit may not be null"))
    else NewExponentialWaitStrategy(multiplier, ToMillis(maximumTime, maximumTimeUnit.value))
  }

  /** `fibonacciWait()`: multiplier 1, no cap below `Long.MAX_VALUE`. */
  function FibonacciWait(): (r: Result<WaitStrategy>)
    ensures r.Ok? && Valid(r.value)
    ensures r.value == FibonacciWaitStrategy(1, LONG_MAX)
  {
    NewFibonacciWaitStrategy(1, LONG_MAX)
  }

  function FibonacciWaitUpTo(maximumTime: Long, maximumTimeUnit: Option<TimeUnit>): (r: Result<WaitStrategy>)
    ensures maximumTimeUnit.None? ==> r.Err? && r.error.NullPointer?
    ensures maximumTimeUnit.Some? ==> (r.Ok? <==> ToMillis(maximumTime, maximumTimeUnit.value) > 1)
    ensures r.Ok? ==> Valid(r.value) && r.value == FibonacciWaitStrategy(1, ToMillis(maximumTime, maximumTimeUnit.value))
    ensures maximumTimeUnit.Some? && r.Err? ==> r.error.IllegalArgument?
  {
    if maximumTimeUnit.None? then Err(NullPointer("The maximum time unit may not be null"))
    else NewFibonacciWaitStrategy(1, ToMillis(maximumTime, maximumTimeUnit.value))
  }

  function FibonacciWaitScaled(multiplier: Long, maximumTime: Long, maximumTimeUnit: Option<TimeUnit>): (r: Result<WaitStrategy>)
    ensures maximumTimeUnit.None? ==> r.Err? && r.error.NullPointer?
    ensures maximumTimeUnit.Some? ==> (r.Ok? <==> 0 < multiplier < ToMillis(maximumTime, maximumTimeUnit.value))
    ensures r.Ok? ==> Valid(r.value)
                      && r.value == FibonacciWaitStrategy(multiplier, ToMillis(maximumTime, maximumTimeUnit.value))
    ensures maximumTimeUnit.Some? && r.Err? ==> r.error.IllegalArgument?
  {
    if maximumTimeUnit.None? then Err(NullPointer("The maximum time unit may not be null"))
    else NewFibonacciWaitStrategy(multiplier, ToMillis(maximumTime, maximumTimeUnit.value))
  }

  function ExceptionWait(exceptionClass: Option<ClassTag>, sleepFunction: Option<ThrowableObject -> Long>): (r: Result<WaitStrategy>)
    ensures r.Ok? <==> exceptionClass.Some? && sleepFunction.Some?
    ensures r.Err? ==> r.error.NullPointer?
    ensures r.Ok? ==> Valid(r.value)
                      && r.value == ExceptionWaitStrategy(exceptionClass.value, sleepFunction.value)
  {
    if exceptionClass.None? then Err(NullPointer("exceptionClass may not be null"))
    else if sleepFunction.None? then Err(NullPointer("function may not be null"))
    else Ok(ExceptionWaitStrategy(exceptionClass.value, sleepFunction.value))
  }

  /** The policies of a list that holds no `null`, in order. */
  function Unwrapped(ws: seq<Option<WaitStrategy>>): (r: seq<WaitStrategy>)
    requires forall i :: 0 <= i < |ws| ==> ws[i].Some?
    ensures |r| == |ws| && forall i :: 0 <= i < |ws| ==> r[i] == ws[i].value
  {
    if ws == [] then [] else Unwrapped(ws[..|ws| - 1]) + [ws[|ws| - 1].value]
  }

  /** `join(waitStrategies...)`: a composite of the given policies, in order. */
  function Join(waitStrategies: seq<Option<WaitStrategy>>): (r: Result<WaitStrategy>)
    ensures r.Ok? <==> |waitStrategies| > 0 && forall i :: 0 <= i < |waitStrategies| ==> waitStrategies[i].Some?
    ensures r.Err? ==> r.error.IllegalState?
    ensures r.Ok? ==> r.value.CompositeWaitStrategy? && |r.value.waitStrategies| == |waitStrategies|
                      && forall i :: 0 <= i < |waitStrategies| ==> r.value.waitStrategies[i] == waitStrategies[i].value
    ensures r.Ok? && (forall i :: 0 <= i < |waitStrategies| ==> Valid(waitStrategies[i].value)) ==> Valid(r.value)
  {
    if |waitStrategies| == 0 then Err(IllegalState("Must have at least one wait strategy"))
    else if exists i :: 0 <= i < |waitStrategies| && waitStrategies[i].None? then
      Err(IllegalState("Cannot have a null wait strategy"))
    else NewCompositeWaitStrategy(Unwrapped(waitStrategies))
  }

  // ---------------------------------------------------------------------
  // Properties of the policies.

  lemma NoWaitNeverWaits<V>(a: Attempt<V>)
    ensures SleepTime(NoWait(), a, []) == 0
  {
  }

  /** A fixed wait sleeps its configured time, converted to milliseconds,
      whatever the attempt. */
  lemma FixedWaitIsConstant<V>(sleepTime: Long, timeUnit: TimeUnit, a: Attempt<V>)
    requires FixedWait(sleepTime, Some(timeUnit)).Ok?
    ensures SleepTime(FixedWait(sleepTime, Some(timeUnit)).value, a, []) == ToMillis(sleepTime, timeUnit)
  {
  }

  /** Every delay of the range `[minimum, maximum)` is produced by some draw. */
  lemma RandomSleepReachesEveryValue(minimum: Long, maximum: Long, t: Long)
    requires 0 <= minimum <= t < maximum
    ensures RandomSleep(minimum, maximum, t - minimum) == t
  {
  }

  lemma MulMonotone(k: int, x: int, y: int)
    requires k >= 0 && x <= y
    ensures k * x <= k * y
  {
  }

  /** A positive multiple of a number above a bound is above the bound. */
  lemma ProductExceeds(k: int, x: int, bound: int)
    requires k >= 1 && x > bound && x >= 0
    ensures k * x > bound
  {
    if x > 0 {
      MulMonotone(k, 1, x);
    }
  }

  /** With a non-negative increment and no overflow, the incrementing wait
      never shrinks from one attempt to a later one. */
  lemma IncrementingSleepMonotone(initialSleepTime: Long, increment: Long, n1: AttemptNumber, n2: AttemptNumber)
    requires initialSleepTime >= 0 && increment >= 0 && n1 <= n2
    requires initialSleepTime + increment * (n2 - 1) <= LONG_MAX
    ensures IncrementingSleep(initialSleepTime, increment, n1) <= IncrementingSleep(initialSleepTime, increment, n2)
  {
    MulMonotone(increment, n1 - 1, n2 - 1);
    MulMonotone(increment, 0, n1 - 1);
  }

  /** `incrementingWait(0, SECONDS, 5, SECONDS)` sleeps 0, 5000 and 10000
      milliseconds after attempts 1, 2 and 3. */
  lemma IncrementingWaitExample<V>(a: Attempt<V>)
    requires a.attemptNumber <= 3
    ensures var w := IncrementingWait(0, Some(SECONDS), 5, Some(SECONDS));
            w.Ok? && SleepTime(w.value, a, []) == 5000 * (a.attemptNumber - 1)
  {
    var w := IncrementingWait(0, Some(SECONDS), 5, Some(SECONDS));
    assert ToMillis(5, SECONDS) == 5000;
    assert w.value == IncrementingWaitStrategy(0, 5000);
  }

  lemma {:induction false} Pow2Monotone(i: nat, j: nat)
    requires i <= j
    ensures Pow2(i) <= Pow2(j)
    decreases j
  {
    if i < j {
      Pow2Monotone(i, j - 1);
    }
  }

  lemma {:induction false} Pow2Exceeds(n: nat)
    ensures Pow2(n) > n
  {
    if n > 0 {
      Pow2Exceeds(n - 1);
    }
  }

  /** The exponential wait is non-decreasing in the attempt number. */
  lemma ExponentialSleepMonotone(multiplier: Long, maximumWait: Long, n1: AttemptNumber, n2: AttemptNumber)
    requires multiplier > 0 && maximumWait >= 0 && n1 <= n2
    ensures ExponentialSleep(multiplier, maximumWait, n1) <= ExponentialSleep(multiplier, maximumWait, n2)
  {
    Pow2Monotone(n1, n2);
    MulMonotone(multiplier, Pow2(n1), Pow2(n2));
  }

  /** From attempt `maximumWait` on, the exponential wait sits exactly at
      its cap. */
  lemma ExponentialSleepReachesCap(multiplier: Long, maximumWait: Long, n: AttemptNumber)
    requires multiplier > 0 && maximumWait >= 0 && n >= maximumWait
    ensures ExponentialSleep(multiplier, maximumWait, n) == maximumWait
  {
    Pow2Exceeds(n);
    ProductExceeds(multiplier, Pow2(n), maximumWait);
  }

  lemma {:induction false} FibStep(n: nat)
    ensures Fib(n) <= Fib(n + 1)
  {
  }

  lemma {:induction false} FibMonotone(i: nat, j: nat)
    requires i <= j
    ensures Fib(i) <= Fib(j)
    decreases j
  {
    if i < j {
      FibMonotone(i, j - 1);
      FibStep(j - 1);
    }
  }

  lemma {:induction false} FibLowerBound(n: nat)
    requires n >= 1
    ensures Fib(n) >= n - 1
  {
    if n >= 3 {
      FibLowerBound(n - 1);
      FibMonotone(1, n - 2);
    }
  }

  /** The Fibonacci wait is non-decreasing in the attempt number. */
  lemma FibonacciSleepMonotone(multiplier: Long, maximumWait: Long, n1: AttemptNumber, n2: AttemptNumber)
    requires multiplier > 0 && maximumWait >= 0 && n1 <= n2
    ensures FibonacciSleep(multiplier, maximumWait, n1) <= FibonacciSleep(multiplier, maximumWait, n2)
  {
    FibMonotone(n1, n2);
    MulMonotone(multiplier, Fib(n1), Fib(n2));
  }

  /** After attempt `maximumWait` the Fibonacci wait sits exactly at its cap. */
  lemma FibonacciSleepReachesCap(multiplier: Long, maximumWait: Long, n: AttemptNumber)
    requires multiplier > 0 && maximumWait >= 0 && n > maximumWait
    ensures FibonacciSleep(multiplier, maximumWait, n) == maximumWait
  {
    FibLowerBound(n);
    ProductExceeds(multiplier, Fib(n), maximumWait - 1);
  }

  /** Joining `Fixed(100)` and `Fixed(250)` sleeps 350 milliseconds after
      every attempt. */
  lemma JoinOfFixedWaits<V>(a: Attempt<V>)
    ensures var j := Join([Some(FixedWaitStrategy(100)), Some(FixedWaitStrategy(250))]);
            j.Ok? && Valid(j.value) && SleepTime(j.value, a, []) == 350
  {
    var ws := [FixedWaitStrategy(100), FixedWaitStrategy(250)];
    var j := Join([Some(FixedWaitStrategy(100)), Some(FixedWaitStrategy(250))]);
    assert j.value.waitStrategies == ws;
    assert ws[..1] == [FixedWaitStrategy(100)] && ws[..1][..0] == [];
    assert JoinSum(ws[..1], a, []) == 100;
  }

  /** A join of a single policy behaves exactly like that policy, as long as
      its delays stay within the `long` range. */
  lemma JoinOfOne<V>(w: WaitStrategy, a: Attempt<V>, draws: seq<nat>)
    requires Valid(w) && |draws| >= DrawCount(w)
    ensures Valid(CompositeWaitStrategy([w])) && DrawCount(CompositeWaitStrategy([w])) == DrawCount(w)
    ensures SleepTime(CompositeWaitStrategy([w]), a, draws) == SleepTime(w, a, draws)
  {
    assert [w][..0] == [];
    assert DrawsOf([w]) == DrawCount(w);
    assert draws[0..] == draws;
    assert JoinSum([w], a, draws) == SleepTime(w, a, draws);
  }

  /** A join of policies whose delays are non-negative sleeps their exact
      sum, or `Long.MAX_VALUE` when the sum exceeds it. */
  lemma JoinIsSaturatedSum<V>(ws: seq<WaitStrategy>, a: Attempt<V>, draws: seq<nat>)
    requires Valid(CompositeWaitStrategy(ws)) && |draws| >= DrawsOf(ws)
    requires forall i :: 0 <= i < |ws| ==> NonNegativeDelays(ws[i])
    ensures var s := JoinSum(ws, a, draws);
            SleepTime(CompositeWaitStrategy(ws), a, draws) == if s <= LONG_MAX then s else LONG_MAX
  {
  }

  /** An exception-keyed wait applies to a cause of any subclass of a
      subclass of its configured class. */
  lemma ExceptionWaitAppliesToSubclasses<V>(exceptionClass: ClassTag, f: ThrowableObject -> Long,
                                            sub: ClassTag, a: Attempt<V>)
    requires IsSubtype(sub, exceptionClass)
    requires a.HasException() && IsSubtype(a.cause.cls, sub)
    ensures SleepTime(ExceptionWaitStrategy(exceptionClass, f), a, []) == f(a.cause)
  {
    IsSubtypeTransitive(a.cause.cls, sub, exceptionClass);
  }

  /** An exception-keyed wait never delays after an attempt that returned a
      result or threw a class outside the configured one. */
  lemma ExceptionWaitZeroOtherwise<V>(exceptionClass: ClassTag, f: ThrowableObject -> Long, a: Attempt<V>)
    requires a.HasResult() || !IsSubtype(a.cause.cls, exceptionClass)
    ensures SleepTime(ExceptionWaitStrategy(exceptionClass, f), a, []) == 0
  {
  }
}
