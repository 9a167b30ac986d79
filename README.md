# guava-retrying policy algebra in Dafny

This project models the policy layer of guava-retrying, a Java library that runs a task again until it succeeds or gives up. The three parts it models are:

- **Wait strategies** (`WaitStrategies.java`). Each one maps the attempt that just failed to the number of milliseconds to sleep before the next attempt. The policies are fixed, no-wait, random within a range, incrementing, exponential, Fibonacci, an exception-keyed delay, and a join that sums several policies. Their constructors validate the bounds they are given.
- **Stop strategies** (`StopStrategies.java`). These are never stop, stop after N attempts, and stop once a delay since the first attempt has passed.
- **`RetryerBuilder`** (`RetryerBuilder.java`). This mutable builder sets the wait, stop and block strategies once each. It can replace the attempt time limiter at any time, and it appends listeners. Each `retryIf*` call OR-s one more criterion into a rejection predicate that starts as always-false. `build()` fills in defaults for whatever was never set.

Modules, one per file:

- `Preconditions` (`preconditions.dfy`): the `Option` and `Result` wrappers. Guava's `checkNotNull`, `checkArgument` and `checkState` failures become `NullPointer`, `IllegalArgument` and `IllegalState` errors. A Java `null` argument is `None`.
- `JavaLang` (`java_lang.dfy`):
  - the `long` and `int` ranges;
  - two's-complement wrap-around;
  - Java's truncating `/` and `%`;
  - saturation into the `long` range;
  - `Math.abs`;
  - a finite exception class hierarchy, where `IsSubtype` stands for `Class.isAssignableFrom`.
- `TimeUnits` (`time_unit.dfy`): `TimeUnit.toMillis`. It truncates for units finer than a millisecond and saturates for coarser ones.
- `Attempts` (`attempt.dfy`): an attempt is a value. It holds either a result or a cause, together with the attempt number (1 for the first attempt) and the milliseconds since the first attempt began.
- `WaitStrategies` (`wait_strategies.dfy`):
  - one datatype constructor per policy class;
  - the constructor checks;
  - the factories;
  - each policy's `computeSleepTime`;
  - the `fib` loop as a method proved equal to the recursive Fibonacci function;
  - the join's accumulation loop as a method proved equal to the saturated exact sum;
  - the lemmas about them.
- `WaitFindings` (`wait_findings.dfy`): three computations whose wrapping step is modelled as Java's `long` arithmetic performs it, each with the input at which it departs from the intended policy (see Findings). Only that step wraps. The as-written join adds up the parts' intended delays, so a nested Fibonacci wait or join contributes its intended delay.
- `StopStrategies` (`stop_strategies.dfy`): the three stop policies, their checks and factories, and their threshold and monotonicity lemmas.
- `Builder` (`retryer_builder.dfy`):
  - the three attempt predicates;
  - the OR-chain rejection predicate, with its list of criteria;
  - the `RetryerBuilder` class, whose methods change its fields in place;
  - `Build`.

The random policy consumes its randomness as a parameter. Every `computeSleepTime` receives a sequence of non-negative draws. A random policy uses the first draw. A join hands each part the draws left after the parts before it.

## Model

| member | source | states |
|---|---|---|
| JavaLang.Wrap | src/main/java/com/github/rholder/retry/WaitStrategies.java:293 | The `long` a Java expression yields: the exact value when it fits, otherwise the value in range congruent to it modulo 2^64. |
| JavaLang.Abs | src/main/java/com/github/rholder/retry/WaitStrategies.java:271 | `Math.abs` is non-negative and equals `x` or `-x` for every argument except `Long.MIN_VALUE`, which it returns unchanged. |
| JavaLang.WrapAdd | src/main/java/com/github/rholder/retry/WaitStrategies.java:393 | A chain of wrapping `long` additions ends where a single wrap of the exact sum does. |
| JavaLang.Saturate | src/main/java/com/github/rholder/retry/WaitStrategies.java:68 | Saturation returns the `long` nearest to the exact value: no `long` lies closer to it. |
| JavaLang.Quot | src/main/java/com/github/rholder/retry/WaitStrategies.java:68 | Java `/` with a positive divisor truncates toward zero: the quotient has the dividend's sign and its multiple of the divisor lies within one divisor of the dividend, on the zero side. |
| JavaLang.Rem | src/main/java/com/github/rholder/retry/WaitStrategies.java:271 | Java `%` with a positive divisor: the dividend equals the truncated quotient times the divisor plus the remainder, which is strictly within the divisor in magnitude and has the sign of the dividend. |
| JavaLang.IsSubtype | src/main/java/com/github/rholder/retry/WaitStrategies.java:420 | Every class is assignable from itself and to `Throwable`. A class is assignable only to classes no deeper in the hierarchy than itself. |
| JavaLang.IsSubtypeReflexive | src/main/java/com/github/rholder/retry/RetryerBuilder.java:234 | Every class is assignable from itself. |
| JavaLang.IsSubtypeTransitive | src/main/java/com/github/rholder/retry/RetryerBuilder.java:234 | Assignability is transitive: a subclass of a subclass is a subclass. |
| JavaLang.IsSubtypeAntisymmetric | src/main/java/com/github/rholder/retry/WaitStrategies.java:420 | Two classes each assignable from the other are the same class. |
| JavaLang.IsSubtypeOfThrowable | src/main/java/com/github/rholder/retry/RetryerBuilder.java:223 | Every cause class is assignable to `Throwable`. |
| TimeUnits.SaturatedScale | src/main/java/com/github/rholder/retry/WaitStrategies.java:66-69 | Refusing a duration past `Long.MAX_VALUE / millisPer` in either direction gives the same result as saturating the exact product. |
| TimeUnits.ToMillis | src/main/java/com/github/rholder/retry/WaitStrategies.java:66-69 | Nanoseconds and microseconds are divided by 10^6 and 10^3, truncated toward zero. Milliseconds are unchanged. Seconds, minutes, hours and days are multiplied by 1000, 60000, 3600000 and 86400000, saturated to the `long` range. The sign of a duration never changes, and a non-zero duration in milliseconds or coarser stays non-zero. |
| WaitStrategies.RandomSleep | src/main/java/com/github/rholder/retry/WaitStrategies.java:269-273 | For every non-negative draw, the random delay lies in `[minimum, maximum)`. |
| WaitStrategies.RandomSleepReachesEveryValue | src/main/java/com/github/rholder/retry/WaitStrategies.java:269-273 | Every delay in `[minimum, maximum)` is produced by some draw. |
| WaitStrategies.IncrementingSleep | src/main/java/com/github/rholder/retry/WaitStrategies.java:291-295 | The incrementing delay is never negative. Without overflow it is `max(0, initial + increment * (attemptNumber - 1))`. |
| WaitStrategies.IncrementingSleepMonotone | src/main/java/com/github/rholder/retry/WaitStrategies.java:293-294 | With a non-negative increment and no overflow, a later attempt never waits less. |
| WaitStrategies.IncrementingWaitExample | src/main/java/com/github/rholder/retry/WaitStrategies.java:114-122 | `incrementingWait(0, SECONDS, 5, SECONDS)` builds and waits 0, 5000 and 10000 ms after attempts 1, 2 and 3. |
| WaitStrategies.ExponentialSleep | src/main/java/com/github/rholder/retry/WaitStrategies.java:317-327 | The exponential delay is `min(multiplier * 2^attemptNumber, maximumWait)`: the product while it does not exceed the cap, the cap otherwise. |
| WaitStrategies.ExponentialSleepMonotone | src/main/java/com/github/rholder/retry/WaitStrategies.java:317-327 | The exponential delay is non-decreasing in the attempt number. |
| WaitStrategies.ExponentialSleepReachesCap | src/main/java/com/github/rholder/retry/WaitStrategies.java:323-325 | From attempt `maximumWait` on, the exponential delay is exactly the cap. |
| WaitStrategies.FibLoop | src/main/java/com/github/rholder/retry/WaitStrategies.java:359-374 | The iterative `fib` loop returns the recursive Fibonacci number, with fib(0) = 0 and fib(1) = 1. |
| WaitStrategies.FibonacciSleep | src/main/java/com/github/rholder/retry/WaitStrategies.java:347-357 | The Fibonacci delay is `min(multiplier * fib(attemptNumber), maximumWait)`: the product while it does not exceed the cap, the cap otherwise. |
| WaitStrategies.FibonacciSleepMonotone | src/main/java/com/github/rholder/retry/WaitStrategies.java:347-357 | The Fibonacci delay is non-decreasing in the attempt number. |
| WaitStrategies.FibonacciSleepReachesCap | src/main/java/com/github/rholder/retry/WaitStrategies.java:352-353 | After attempt `maximumWait`, the Fibonacci delay is exactly the cap. |
| WaitStrategies.ExceptionSleep | src/main/java/com/github/rholder/retry/WaitStrategies.java:416-425 | The exception-keyed delay is 0 after a result, and non-negative whenever the configured function is. |
| WaitStrategies.SleepTime | src/main/java/com/github/rholder/retry/WaitStrategy.java:32 | A valid policy whose exception functions return no negative delay never sleeps a negative time. |
| WaitStrategies.JoinSum | src/main/java/com/github/rholder/retry/WaitStrategies.java:390-395 | The ordered exact sum of the parts is non-negative when every part's delays are. |
| WaitStrategies.CompositeSleepTime | src/main/java/com/github/rholder/retry/WaitStrategies.java:389-396 | The accumulation loop over the parts returns the join's delay: the exact ordered sum, saturated to the `long` range. |
| WaitStrategies.NewFixedWaitStrategy | src/main/java/com/github/rholder/retry/WaitStrategies.java:241-244 | Succeeds exactly when `sleepTime >= 0`, otherwise fails with an illegal argument. |
| WaitStrategies.NewRandomWaitStrategy | src/main/java/com/github/rholder/retry/WaitStrategies.java:261-267 | Succeeds exactly when `0 <= minimum < maximum`, otherwise fails with an illegal argument. |
| WaitStrategies.NewIncrementingWaitStrategy | src/main/java/com/github/rholder/retry/WaitStrategies.java:284-289 | Succeeds exactly when `initialSleepTime >= 0`. Any increment is accepted. |
| WaitStrategies.NewExponentialWaitStrategy | src/main/java/com/github/rholder/retry/WaitStrategies.java:309-315 | Succeeds exactly when `0 < multiplier < maximumWait`, otherwise fails with an illegal argument. |
| WaitStrategies.NewFibonacciWaitStrategy | src/main/java/com/github/rholder/retry/WaitStrategies.java:339-345 | The same checks as the exponential constructor. |
| WaitStrategies.NewCompositeWaitStrategy | src/main/java/com/github/rholder/retry/WaitStrategies.java:384-387 | Succeeds exactly on a non-empty list, otherwise fails with an illegal state. |
| WaitStrategies.NoWait | src/main/java/com/github/rholder/retry/WaitStrategies.java:44-56 | `noWait()` is a valid policy with non-negative delays that uses no randomness. |
| WaitStrategies.FixedWait | src/main/java/com/github/rholder/retry/WaitStrategies.java:66-69 | A null unit is a null-pointer error. Otherwise it succeeds exactly when the converted time is non-negative, which includes every non-negative time, and builds a fixed wait of the converted time. Any other failure is an illegal argument, which is what the constructor's `checkArgument` throws. |
| WaitStrategies.RandomWait | src/main/java/com/github/rholder/retry/WaitStrategies.java:79-82 | A null unit is a null-pointer error. Otherwise it succeeds exactly when the converted maximum is positive, and builds the random wait over `[0, converted maximum)`. Any other failure is an illegal argument, which is what the constructor's `checkArgument` throws. |
| WaitStrategies.RandomWaitBetween | src/main/java/com/github/rholder/retry/WaitStrategies.java:95-103 | Either null unit is a null-pointer error. Otherwise it succeeds exactly when `0 <= min < max` after conversion, and builds the random wait over the two converted bounds. Any other failure is an illegal argument, which is what the constructor's `checkArgument` throws. |
| WaitStrategies.IncrementingWait | src/main/java/com/github/rholder/retry/WaitStrategies.java:114-122 | Either null unit is a null-pointer error. Otherwise it succeeds exactly when the converted initial time is non-negative, and builds the incrementing wait from the converted initial time and increment. Any other failure is an illegal argument, which is what the constructor's `checkArgument` throws. |
| WaitStrategies.ExponentialWait | src/main/java/com/github/rholder/retry/WaitStrategies.java:129-131 | Always succeeds, with multiplier 1 and cap `Long.MAX_VALUE`. |
| WaitStrategies.ExponentialWaitUpTo | src/main/java/com/github/rholder/retry/WaitStrategies.java:141-144 | A null unit is a null-pointer error. Otherwise it succeeds exactly when the converted cap exceeds 1, and builds the exponential wait with multiplier 1 and the converted cap. Any other failure is an illegal argument, which is what the constructor's `checkArgument` throws. |
| WaitStrategies.ExponentialWaitScaled | src/main/java/com/github/rholder/retry/WaitStrategies.java:157-160 | A null unit is a null-pointer error. Otherwise it succeeds exactly when `0 < multiplier <` the converted cap, and builds the exponential wait with that multiplier and cap. Any other failure is an illegal argument, which is what the constructor's `checkArgument` throws. |
| WaitStrategies.FibonacciWait | src/main/java/com/github/rholder/retry/WaitStrategies.java:171-173 | Always succeeds, with multiplier 1 and cap `Long.MAX_VALUE`. |
| WaitStrategies.FibonacciWaitUpTo | src/main/java/com/github/rholder/retry/WaitStrategies.java:183-186 | A null unit is a null-pointer error. Otherwise it succeeds exactly when the converted cap exceeds 1, and builds the Fibonacci wait with multiplier 1 and the converted cap. Any other failure is an illegal argument, which is what the constructor's `checkArgument` throws. |
| WaitStrategies.FibonacciWaitScaled | src/main/java/com/github/rholder/retry/WaitStrategies.java:199-202 | A null unit is a null-pointer error. Otherwise it succeeds exactly when `0 < multiplier <` the converted cap, and builds the Fibonacci wait with that multiplier and cap. Any other failure is an illegal argument, which is what the constructor's `checkArgument` throws. |
| WaitStrategies.ExceptionWait | src/main/java/com/github/rholder/retry/WaitStrategies.java:211-216 | Succeeds exactly when neither the class nor the function is null, and builds the exception-keyed wait of that class and function. Otherwise it is a null-pointer error. |
| WaitStrategies.Join | src/main/java/com/github/rholder/retry/WaitStrategies.java:227-232 | Fails with an illegal state on an empty list or a null entry. Otherwise it is the composite of the given policies in order, valid when they are. |
| WaitStrategies.NoWaitNeverWaits | src/main/java/com/github/rholder/retry/WaitStrategies.java:44-56 | `noWait()` sleeps 0 after every attempt. |
| WaitStrategies.FixedWaitIsConstant | src/main/java/com/github/rholder/retry/WaitStrategies.java:246-249 | A fixed wait sleeps its converted time after every attempt. |
| WaitStrategies.JoinOfFixedWaits | src/main/java/com/github/rholder/retry/WaitStrategies.java:227-232 | Joining fixed waits of 100 and 250 ms sleeps 350 ms after every attempt. |
| WaitStrategies.JoinOfOne | src/main/java/com/github/rholder/retry/WaitStrategies.java:389-396 | A join of one policy behaves exactly like that policy. |
| WaitStrategies.JoinIsSaturatedSum | src/main/java/com/github/rholder/retry/WaitStrategies.java:389-396 | A join of non-negative policies sleeps their exact sum, or `Long.MAX_VALUE` when the sum exceeds it. |
| WaitStrategies.ExceptionWaitAppliesToSubclasses | src/main/java/com/github/rholder/retry/WaitStrategies.java:418-422 | An exception-keyed wait applies its function to a cause of any transitive subclass of its class. |
| WaitStrategies.ExceptionWaitZeroOtherwise | src/main/java/com/github/rholder/retry/WaitStrategies.java:416-425 | An exception-keyed wait sleeps 0 after a result or after a cause outside its class. |
| WaitFindings.RandomSleepAsWritten | src/main/java/com/github/rholder/retry/WaitStrategies.java:270-273 | The random computation as written stays below `maximum`, and agrees with the intended one on every draw except `Long.MIN_VALUE`. |
| WaitFindings.RandomSleepAsWrittenAtMinValue | src/main/java/com/github/rholder/retry/WaitStrategies.java:271 | At `Long.MIN_VALUE` the result as written is `minimum - 2^63 mod (maximum - minimum)`. |
| WaitFindings.RandomSleepAsWrittenGoesNegative | src/main/java/com/github/rholder/retry/WaitStrategies.java:271-272 | For the range `[0, 3)` that draw gives -2. |
| WaitFindings.FibLong | src/main/java/com/github/rholder/retry/WaitStrategies.java:359-374 | The `fib` loop's wrapping additions return the exact Fibonacci number wrapped once into the `long` range. |
| WaitFindings.FibLongExact | src/main/java/com/github/rholder/retry/WaitStrategies.java:359-374 | While the Fibonacci numbers fit in a `long`, the wrapping loop computes them exactly. |
| WaitFindings.FibonacciSleepAsWritten | src/main/java/com/github/rholder/retry/WaitStrategies.java:348-357 | The Fibonacci delay as written always lies in `[0, maximumWait]`. |
| WaitFindings.FibonacciAsWrittenAgreesWithoutOverflow | src/main/java/com/github/rholder/retry/WaitStrategies.java:348-357 | When `multiplier * fib(n)` fits in a `long`, the code as written and the intended policy agree. |
| WaitFindings.FibonacciAsWrittenNotMonotone | src/main/java/com/github/rholder/retry/WaitStrategies.java:350-353 | With multiplier 2^62 and cap `Long.MAX_VALUE`, attempt 4 waits the cap but attempt 5 waits only 2^62. The intended policy waits the cap. |
| WaitFindings.JoinSleepAsWritten | src/main/java/com/github/rholder/retry/WaitStrategies.java:390-395 | The wrapping accumulation returns the exact ordered sum of the parts wrapped once into the `long` range. |
| WaitFindings.JoinAsWrittenExact | src/main/java/com/github/rholder/retry/WaitStrategies.java:390-395 | Whenever the exact sum fits in a `long`, the wrapping accumulation computes it, even if a running total overflowed on the way. |
| WaitFindings.JoinAsWrittenGoesNegative | src/main/java/com/github/rholder/retry/WaitStrategies.java:391-395 | Joining `Long.MAX_VALUE` and 1 ms sleeps `Long.MIN_VALUE` as written, and `Long.MAX_VALUE` in the intended policy. |
| StopStrategies.NewStopAfterAttemptStrategy | src/main/java/com/github/rholder/retry/StopStrategies.java:106-109 | Succeeds exactly when `maxAttemptNumber >= 1`, otherwise fails with an illegal argument. |
| StopStrategies.NewStopAfterDelayStrategy | src/main/java/com/github/rholder/retry/StopStrategies.java:126-129 | Succeeds exactly when `maxDelay >= 0`, otherwise fails with an illegal argument. |
| StopStrategies.NeverStop | src/main/java/com/github/rholder/retry/StopStrategies.java:44-46 | `neverStop()` is the valid never-stop policy. |
| StopStrategies.StopAfterAttempt | src/main/java/com/github/rholder/retry/StopStrategies.java:54-56 | Succeeds exactly when the attempt count is at least 1, and keeps that count. |
| StopStrategies.StopAfterDelay | src/main/java/com/github/rholder/retry/StopStrategies.java:83-86 | A null unit is a null-pointer error. Otherwise it succeeds exactly when the converted delay is non-negative, keeping the delay in milliseconds. |
| StopStrategies.StopAfterDelayMillis | src/main/java/com/github/rholder/retry/StopStrategies.java:67-70 | The deprecated overload succeeds exactly when the delay is non-negative, and keeps it unconverted. |
| StopStrategies.ShouldStop | src/main/java/com/github/rholder/retry/StopStrategies.java:94-134 | Never-stop never stops. A policy allowing one attempt stops after every attempt, and so does a zero delay budget. |
| StopStrategies.NeverStopNeverStops | src/main/java/com/github/rholder/retry/StopStrategies.java:92-97 | Never-stop is false for every attempt. |
| StopStrategies.ShouldStopIgnoresOutcome | src/main/java/com/github/rholder/retry/StopStrategies.java:111-134 | Stopping depends only on the attempt number and delay, not on whether the attempt returned or threw. |
| StopStrategies.ShouldStopMonotone | src/main/java/com/github/rholder/retry/StopStrategies.java:111-134 | Every stop policy that stops for an attempt also stops for any attempt with a number and delay at least as large. |
| StopStrategies.StopAfterAttemptAllowsExactlyN | src/main/java/com/github/rholder/retry/StopStrategies.java:112-114 | Stop-after-attempt(N) is false before attempt N and true from attempt N on. |
| StopStrategies.StopAfterThreeAttempts | src/main/java/com/github/rholder/retry/StopStrategies.java:112-114 | Stop-after-attempt(3) is false for attempts 1 and 2 and true exactly from 3 on. |
| StopStrategies.FirstAttemptStopsOnlyForOne | src/main/java/com/github/rholder/retry/StopStrategies.java:106-114 | A constructible stop-after-attempt policy stops after the first attempt exactly when N = 1. |
| StopStrategies.StopAfterDelayStopsAtDeadline | src/main/java/com/github/rholder/retry/StopStrategies.java:131-134 | Stop-after-delay stops exactly when the delay since the first attempt reaches the converted budget. |
| StopStrategies.StopAfterZeroDelayAlwaysStops | src/main/java/com/github/rholder/retry/StopStrategies.java:126-134 | A zero delay budget, in any unit, stops after every attempt. |
| StopStrategies.StopAfterOneSecond | src/main/java/com/github/rholder/retry/StopStrategies.java:83-86 | `stopAfterDelay(1, SECONDS)` stops exactly from 1000 ms on. |
| StopStrategies.StopAfterDelayMillisAgrees | src/main/java/com/github/rholder/retry/StopStrategies.java:67-70 | The deprecated `stopAfterDelay(ms)` equals `stopAfterDelay(ms, MILLISECONDS)`, in success and failure. |
| StopStrategies.BoundedPoliciesEventuallyStop | src/main/java/com/github/rholder/retry/StopStrategies.java:106-134 | Every valid policy other than never-stop stops at the largest attempt number and delay. |
| Builder.Apply | src/main/java/com/github/rholder/retry/RetryerBuilder.java:229-270 | A criterion holds only on the kind of attempt it is about: a result criterion only after a result, the other two only after an exception. The `Throwable` class criterion holds after every exception. |
| Builder.Holds | src/main/java/com/github/rholder/retry/RetryerBuilder.java:150 | The initial always-false predicate never holds. OR-ing in a criterion never withdraws a retry the predicate already asked for. |
| Builder.HoldsIffSomeCriterion | src/main/java/com/github/rholder/retry/RetryerBuilder.java:149-198 | The OR-chained rejection predicate holds exactly when one of the criteria added to it holds. |
| Builder.ExceptionClassPredicateLooksOnlyAtCauses | src/main/java/com/github/rholder/retry/RetryerBuilder.java:229-235 | The exception-class criterion is false after a result. After an exception, it holds exactly when the cause's class is assignable to the configured class. |
| Builder.ResultPredicateLooksOnlyAtResults | src/main/java/com/github/rholder/retry/RetryerBuilder.java:246-253 | The result criterion is false after an exception and otherwise answers as its delegate does for the result. |
| Builder.ExceptionPredicateLooksOnlyAtCauses | src/main/java/com/github/rholder/retry/RetryerBuilder.java:264-270 | The exception criterion is false after a result and otherwise answers as its delegate does for the cause. |
| Builder.AlwaysFalseNeverRetries | src/main/java/com/github/rholder/retry/RetryerBuilder.java:45 | The initial rejection predicate has no criteria and never asks for a retry. |
| Builder.RetryIfExceptionMatchesExceptions | src/main/java/com/github/rholder/retry/RetryerBuilder.java:149-152 | `retryIfException()` matches every cause below `Throwable` outside `Error` and its subclasses, and never a result. |
| Builder.RetryIfRuntimeExceptionExamples | src/main/java/com/github/rholder/retry/RetryerBuilder.java:159-162 | `retryIfRuntimeException()` matches illegal-state and null-pointer causes, but not `IOException` or `OutOfMemoryError`. |
| Builder.ExceptionClassPredicateCoversSubclasses | src/main/java/com/github/rholder/retry/RetryerBuilder.java:229-235 | An exception-class criterion matches every subclass of its class. |
| Builder.ExceptionWaitMatchesExceptionClassPredicate | src/main/java/com/github/rholder/retry/RetryerBuilder.java:229-235 | The exception-keyed wait applies its function exactly where the exception-class criterion for the same class holds, and is 0 elsewhere. |
| Builder.RetryerBuilder.constructor | src/main/java/com/github/rholder/retry/RetryerBuilder.java:49-60 | A new builder has nothing set, the always-false predicate and no listeners, so its policies are trivially valid. |
| Builder.RetryerBuilder.WithAttemptTimeLimiter | src/main/java/com/github/rholder/retry/RetryerBuilder.java:70-74 | A null limiter is a null-pointer error. Otherwise the limiter replaces any earlier one, with no already-set check. Nothing else changes. |
| Builder.RetryerBuilder.WithRetryListener | src/main/java/com/github/rholder/retry/RetryerBuilder.java:84-88 | A null listener is a null-pointer error. Otherwise the listener is appended at the end, the existing entries keep their order, and nothing else changes. |
| Builder.RetryerBuilder.WithWaitStrategy | src/main/java/com/github/rholder/retry/RetryerBuilder.java:102-107 | A null strategy is a null-pointer error. A second setting is an illegal state. Either failure leaves the builder unchanged. Otherwise the strategy is set and nothing else changes. The strategy passed in is a valid one, as every library factory builds. |
| Builder.RetryerBuilder.WithStopStrategy | src/main/java/com/github/rholder/retry/RetryerBuilder.java:116-121 | The same set-once behaviour for the stop strategy. |
| Builder.RetryerBuilder.WithBlockStrategy | src/main/java/com/github/rholder/retry/RetryerBuilder.java:130-135 | The same set-once behaviour for the block strategy. |
| Builder.RetryerBuilder.AddCriterion | src/main/java/com/github/rholder/retry/RetryerBuilder.java:150 | OR-ing in a criterion appends it to the criteria. The new predicate holds exactly when the old one or the criterion does. Nothing else changes. |
| Builder.RetryerBuilder.RetryIfException | src/main/java/com/github/rholder/retry/RetryerBuilder.java:149-152 | OR-s in the `Exception` class criterion and changes nothing else. |
| Builder.RetryerBuilder.RetryIfRuntimeException | src/main/java/com/github/rholder/retry/RetryerBuilder.java:159-162 | OR-s in the `RuntimeException` class criterion and changes nothing else. |
| Builder.RetryerBuilder.RetryIfExceptionOfType | src/main/java/com/github/rholder/retry/RetryerBuilder.java:170-174 | A null class is a null-pointer error and changes nothing. Otherwise it OR-s in that class's criterion. |
| Builder.RetryerBuilder.RetryIfExceptionMatching | src/main/java/com/github/rholder/retry/RetryerBuilder.java:182-186 | A null predicate is a null-pointer error and changes nothing. Otherwise it OR-s in the exception criterion. |
| Builder.RetryerBuilder.RetryIfResult | src/main/java/com/github/rholder/retry/RetryerBuilder.java:194-198 | A null predicate is a null-pointer error and changes nothing. Otherwise it OR-s in the result criterion. |
| Builder.RetryerBuilder.Build | src/main/java/com/github/rholder/retry/RetryerBuilder.java:207-218 | Each configured policy is used as set. An unset one defaults to no time limit, never-stop, no-wait or thread-sleep. The predicate and listeners pass through unchanged. A builder whose stop and wait policies came from the library's validating constructors yields a retryer whose policies are valid. |
| Builder.DefaultRetryer | src/main/java/com/github/rholder/retry/RetryerBuilder.java:207-218 | A retryer built from a fresh builder never retries, never stops, never waits and has no listeners. |
| Builder.ExampleConfiguration | src/test/java/com/whz/example/RetryerTest.java:106-115 | The example configuration retries exactly after a `false` result, stops after five attempts, and waits 2000 + 1000 * (n - 1) ms after attempt n, for n up to 5. |

## Left out

- The retry loop (`Retryer.call`) and the `Attempt` class are not part of this model. An attempt is only an input value. Listeners, time limiters and block strategies are opaque tags. Their behaviour involves threads, interruption and `Thread.sleep`.
- `AttemptTimeLimiters.java` and `BlockStrategies.java` are not part of this model, beyond the tags that `build()` uses as defaults.
- User-written `WaitStrategy` and `StopStrategy` implementations are not modelled. The builder stores only the library's own policies.
- WaitStrategies.ExponentialSleep: the source computes `Math.round(multiplier * Math.pow(2, n))` in `double`. The model uses the exact integer `multiplier * 2^n`. Rounding of products above 2^53 and the saturation of `Math.round` are therefore not captured.
- WaitStrategies.RandomSleep: `java.util.Random` is replaced by a non-negative draw passed in as a parameter. The `Math.abs(Long.MIN_VALUE)` case is modelled separately in `WaitFindings` (see Findings).
- WaitStrategies.FibonacciSleep: computed exactly rather than with wrapping `long` products. The wrapping version and where it differs are in `WaitFindings`.
- WaitStrategies.FibLoop: the source's loop counter is a `long` compared with `i <= n`, so at attempt number `Long.MAX_VALUE` the counter wraps to `Long.MIN_VALUE` and the loop never ends. The model's counter is unbounded and the loop terminates for every attempt number; that hang is not captured.
- WaitStrategies.CompositeSleepTime: sums exactly and saturates rather than wrapping. The wrapping version is in `WaitFindings`.
- WaitStrategies.ExceptionSleep: the configured function may return a negative delay, and the code returns it as is, without clamping it to zero. The model follows the code. A `null` returned by that function, which would fail on unboxing, is not modelled: the function returns a `long`.
- The exception class hierarchy is a fixed set of JDK classes standing in for the open set of Java classes.
- Builder.RetryerBuilder.Build: the source hands the builder's own listener list to the new retryer (RetryerBuilder.java line 217). A listener added by a later `withRetryListener` call therefore reaches every retryer already built, and all retryers built by one builder share one list. The model copies the listener sequence into the built value, so this sharing is not captured.
- The Javadoc of `fixedWait`, `randomWait` and the two-bound `randomWait` (WaitStrategies.java lines 64, 77 and 92) promises `IllegalStateException` for bad times. The code throws `IllegalArgumentException` instead, from `checkArgument` in the policies' constructors. The model follows the code.
- Error messages are kept as plain strings without the `%d` formatting of their arguments.
- The comment in `RetryerTest.java` line 114 describes the waits as 2 s and then 1 s, 2 s, 3 s. `incrementingWait(2, SECONDS, 1, SECONDS)` actually waits 2000, 3000, 4000 ms, and `Builder.ExampleConfiguration` proves these figures.
- The random policy consumes one draw per computation. A join hands its parts consecutive draws. How Java's single shared `Random` interleaves draws across threads is not modelled.

## Findings

| source | as written | input that shows it | evidently intended | confidence | as-written member | corrected member |
|---|---|---|---|---|---|---|
| src/main/java/com/github/rholder/retry/WaitStrategies.java:271 | `Math.abs(RANDOM.nextLong()) % (maximum - minimum)` is negative when the draw is `Long.MIN_VALUE`, because `Math.abs` leaves that value unchanged | `randomWait(3, MILLISECONDS)` with draw `Long.MIN_VALUE` sleeps -2 ms | the delay lies in `[minimum, maximum)` for every draw | not executed; reachable only if `RANDOM.nextLong()` can return `Long.MIN_VALUE` | WaitFindings.RandomSleepAsWrittenGoesNegative | WaitStrategies.RandomSleep |
| src/main/java/com/github/rholder/retry/WaitStrategies.java:350-353 | `multiplier * fib` wraps, and the `result < 0` guard catches only wraps that land below zero | multiplier 2^62, cap `Long.MAX_VALUE`: attempt 4 waits `Long.MAX_VALUE` (3 * 2^62 wraps negative), attempt 5 waits 2^62 (5 * 2^62 wraps positive) | `min(multiplier * fib(n), maximumWait)`, non-decreasing in n | not executed | WaitFindings.FibonacciAsWrittenNotMonotone | WaitStrategies.FibonacciSleep |
| src/main/java/com/github/rholder/retry/WaitStrategies.java:393 | `waitTime += ...` wraps on overflow | `join(fixedWait(Long.MAX_VALUE, MILLISECONDS), fixedWait(1, MILLISECONDS))` sleeps `Long.MIN_VALUE` | the sum of non-negative delays is never negative; the model saturates it at `Long.MAX_VALUE` | not executed | WaitFindings.JoinAsWrittenGoesNegative | WaitStrategies.CompositeSleepTime |
