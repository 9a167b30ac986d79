/** The retryer's configuration builder: a mutable object whose `with*`
    methods each set one policy, whose `retryIf*` methods widen the rejection
    predicate one criterion at a time, and whose `build()` fills in defaults
    for whatever was never set. */
module Builder {
  import opened JavaLang
  import opened TimeUnits
  import opened Attempts
  import opened Preconditions
  import WaitStrategies
  import StopStrategies

  // ---------------------------------------------------------------------
  // Attempt predicates.

  /** The three criteria a `retryIf*` call can add. */
  datatype AttemptPredicate<!V> =
    | ExceptionClassPredicate(exceptionClass: ClassTag)
    | ResultPredicate(resultDelegate: V -> bool)
    | ExceptionPredicate(exceptionDelegate: ThrowableObject -> bool)

  /** `apply(attempt)`: each criterion looks only at the kind of attempt it is
      about and is false for the other kind. */
  function Apply<V>(p: AttemptPredicate<V>, attempt: Attempt<V>): (r: bool)
    ensures r ==> (p.ResultPredicate? <==> attempt.HasResult())
    ensures p.ExceptionClassPredicate? && p.exceptionClass == Throwable ==> (r <==> attempt.HasException())
  {
    match p
    case ExceptionClassPredicate(exceptionClass) =>
      attempt.HasException() && IsSubtype(attempt.cause.cls, exceptionClass)
    case ResultPredicate(delegate) =>
      attempt.HasResult() && delegate(attempt.result)
    case ExceptionPredicate(delegate) =>
      attempt.HasException() && delegate(attempt.cause)
  }

  /** The rejection predicate: `Predicates.alwaysFalse()`, then one
      `Predicates.or(previous, criterion)` per `retryIf*` call. */
  datatype RejectionPredicate<!V> =
    | AlwaysFalse
    | Or(left: RejectionPredicate<V>, right: AttemptPredicate<V>)

  /** Whether the rejection predicate asks for a retry of `attempt`. */
  function Holds<V>(p: RejectionPredicate<V>, attempt: Attempt<V>): (r: bool)
    ensures r ==> p.Or?
    ensures p.Or? && Holds(p.left, attempt) ==> r
  {
    match p
    case AlwaysFalse => false
    case Or(left, right) => Holds(left, attempt) || Apply(right, attempt)
  }

  /** The criteria added so far, oldest first. */
  function Criteria<V>(p: RejectionPredicate<V>): seq<AttemptPredicate<V>> {
    match p
    case AlwaysFalse => []
    case Or(left, right) => Criteria(left) + [right]
  }

  /** The rejection predicate holds exactly when one of the criteria added to
      it holds. */
  lemma {:induction false} HoldsIffSomeCriterion<V>(p: RejectionPredicate<V>, attempt: Attempt<V>)
    ensures Holds(p, attempt) <==> exists i :: 0 <= i < |Criteria(p)| && Apply(Criteria(p)[i], attempt)
  {
    match p
    case AlwaysFalse =>
    case Or(left, right) =>
      HoldsIffSomeCriterion(left, attempt);
      var cs := Criteria(left);
      assert Criteria(p) == cs + [right];
      if Holds(left, attempt) {
        var i :| 0 <= i < |cs| && Apply(cs[i], attempt);
        assert Criteria(p)[i] == cs[i];
      } else if Apply(right, attempt) {
        assert Criteria(p)[|cs|] == right;
      } else {
        forall i | 0 <= i < |Criteria(p)|
          ensures !Apply(Criteria(p)[i], attempt)
        {
          if i < |cs| {
            assert Criteria(p)[i] == cs[i];
          }
        }
      }
  }

  /** An exception-class criterion is false after a result and, after an
      exception, holds exactly when the cause's class is assignable to the
      configured one. */
  lemma ExceptionClassPredicateLooksOnlyAtCauses<V>(exceptionClass: ClassTag, attempt: Attempt<V>)
    ensures attempt.HasResult() ==> !Apply(ExceptionClassPredicate(exceptionClass), attempt)
    ensures attempt.HasException() ==>
              (Apply(ExceptionClassPredicate(exceptionClass), attempt) <==> IsSubtype(attempt.cause.cls, exceptionClass))
  {
  }

  /** A result criterion is false after an exception and otherwise answers
      what its delegate answers for the result. */
  lemma ResultPredicateLooksOnlyAtResults<V>(delegate: V -> bool, attempt: Attempt<V>)
    ensures attempt.HasException() ==> !Apply(ResultPredicate(delegate), attempt)
    ensures attempt.HasResult() ==> (Apply(ResultPredicate(delegate), attempt) <==> delegate(attempt.result))
  {
  }

  /** An exception criterion is false after a result and otherwise answers
      what its delegate answers for the cause. */
  lemma ExceptionPredicateLooksOnlyAtCauses<V>(delegate: ThrowableObject -> bool, attempt: Attempt<V>)
    ensures attempt.HasResult() ==> !Apply(ExceptionPredicate(delegate), attempt)
    ensures attempt.HasException() ==> (Apply(ExceptionPredicate(delegate), attempt) <==> delegate(attempt.cause))
  {
  }

  /** With no criterion added the retryer never retries. */
  lemma AlwaysFalseNeverRetries<V>(attempt: Attempt<V>)
    ensures !Holds(AlwaysFalse, attempt)
    ensures Criteria<V>(AlwaysFalse) == []
  {
  }

  /** `retryIfException()` asks for a retry after any cause that is an
      `Exception`: every class below `Throwable` except `Error` and its
      subclasses. Results are never retried by it. */
  lemma RetryIfExceptionMatchesExceptions<V>(attempt: Attempt<V>)
    ensures attempt.HasResult() ==> !Apply(ExceptionClassPredicate(Exception), attempt)
    ensures attempt.HasException() ==>
              (Apply(ExceptionClassPredicate(Exception), attempt)
               <==> attempt.cause.cls != Throwable && !IsSubtype(attempt.cause.cls, Error))
  {
    if attempt.HasException() {
      var c := attempt.cause.cls;
      if c != Throwable && c != Exception && c != Error {
        assert Parent(c) != Throwable;
      }
    }
  }

  /** `retryIfRuntimeException()` covers the JDK's unchecked argument, state
      and null-pointer exceptions, but not checked ones such as
      `IOException`, nor errors. */
  lemma RetryIfRuntimeExceptionExamples<V>(message: string, n: AttemptNumber, d: Delay)
    ensures Apply<V>(ExceptionClassPredicate(RuntimeException),
                  ExceptionAttempt(ThrowableObject(IllegalStateException, message), n, d))
    ensures Apply<V>(ExceptionClassPredicate(RuntimeException),
                  ExceptionAttempt(ThrowableObject(NullPointerException, message), n, d))
    ensures !Apply<V>(ExceptionClassPredicate(RuntimeException),
                   ExceptionAttempt(ThrowableObject(IOException, message), n, d))
    ensures !Apply<V>(ExceptionClassPredicate(RuntimeException),
                   ExceptionAttempt(ThrowableObject(OutOfMemoryError, message), n, d))
  {
  }

  /** An exception-class criterion also matches every subclass of a class it
      matches. */
  lemma ExceptionClassPredicateCoversSubclasses<V>(exceptionClass: ClassTag, sub: ClassTag,
                                                   message: string, n: AttemptNumber, d: Delay)
    requires IsSubtype(sub, exceptionClass)
    ensures Apply<V>(ExceptionClassPredicate(exceptionClass),
                  ExceptionAttempt(ThrowableObject(sub, message), n, d))
  {
  }

  /** The exception-keyed wait and the exception-class criterion select the
      same attempts: the wait applies its function exactly where the
      criterion with the same class holds, and is 0 elsewhere. */
  lemma ExceptionWaitMatchesExceptionClassPredicate<V>(exceptionClass: ClassTag,
                                                       f: ThrowableObject -> Long, attempt: Attempt<V>)
    ensures Apply(ExceptionClassPredicate(exceptionClass), attempt)
            ==> WaitStrategies.ExceptionSleep(exceptionClass, f, attempt) == f(attempt.cause)
    ensures !Apply(ExceptionClassPredicate(exceptionClass), attempt)
            ==> WaitStrategies.ExceptionSleep(exceptionClass, f, attempt) == 0
  {
  }

  // ---------------------------------------------------------------------
  // The opaque collaborators the builder stores.

  /** An attempt time limiter: `noTimeLimit()` or `fixedTimeLimit(duration,
      unit)`; how it bounds an attempt is not part of this model. */
  datatype AttemptTimeLimiter =
    | NoTimeLimit
    | FixedTimeLimit(duration: Long, timeUnit: TimeUnit)

  /** A block strategy: the default `Thread.sleep` one, or another identified
      only by a tag. */
  datatype BlockStrategy =
    | ThreadSleepStrategy
    | CustomBlockStrategy(id: nat)

  /** A retry listener, identified only by a tag. */
  datatype RetryListener = RetryListener(id: nat)

  /** What `build()` hands to the retryer. */
  datatype Retryer<!V> = Retryer(
    attemptTimeLimiter: AttemptTimeLimiter,
    stopStrategy: StopStrategies.StopStrategy,
    waitStrategy: WaitStrategies.WaitStrategy,
    blockStrategy: BlockStrategy,
    rejectionPredicate: RejectionPredicate<V>,
    listeners: seq<RetryListener>)

  // ---------------------------------------------------------------------
  // The builder.

  class RetryerBuilder<V> {
    var attemptTimeLimiter: Option<AttemptTimeLimiter>
    var stopStrategy: Option<StopStrategies.StopStrategy>
    var waitStrategy: Option<WaitStrategies.WaitStrategy>
    var blockStrategy: Option<BlockStrategy>
    var rejectionPredicate: RejectionPredicate<V>
    var listeners: seq<RetryListener>

    /** The stop and wait strategies that were set are ones the library's
        validating constructors can produce. */
    predicate Valid()
      reads this
    {
      (stopStrategy.Some? ==> StopStrategies.Valid(stopStrategy.value))
      && (waitStrategy.Some? ==> WaitStrategies.Valid(waitStrategy.value))
    }

    /** `newBuilder()`: nothing set, the always-false rejection predicate and
        no listeners. */
    constructor ()
      ensures attemptTimeLimiter.None? && stopStrategy.None?
      ensures waitStrategy.None? && blockStrategy.None?
      ensures rejectionPredicate == AlwaysFalse
      ensures listeners == []
      ensures Valid()
    {
      attemptTimeLimiter := None;
      stopStrategy := None;
      waitStrategy := None;
      blockStrategy := None;
      rejectionPredicate := AlwaysFalse;
      listeners := [];
    }

    /** `withAttemptTimeLimiter`: no already-set check, so a later call
        replaces an earlier limiter. */
    method WithAttemptTimeLimiter(limiter: Option<AttemptTimeLimiter>) returns (outcome: Outcome)
      modifies this
      ensures limiter.None? ==> outcome.Fail? && outcome.error.NullPointer?
      ensures limiter.Some? ==> outcome.Pass?
      ensures attemptTimeLimiter == (if limiter.Some? then limiter else old(attemptTimeLimiter))
      ensures stopStrategy == old(stopStrategy) && waitStrategy == old(waitStrategy)
      ensures blockStrategy == old(blockStrategy)
      ensures rejectionPredicate == old(rejectionPredicate) && listeners == old(listeners)
    {
      if limiter.None? {
        return Fail(NullPointer(""));
      }
      attemptTimeLimiter := limiter;
      return Pass;
    }

    /** `withRetryListener`: appends to the end of the listener list. */
    method WithRetryListener(listener: Option<RetryListener>) returns (outcome: Outcome)
      modifies this
      ensures listener.None? ==> outcome.Fail? && outcome.error.NullPointer?
      ensures listener.Some? ==> outcome.Pass?
      ensures listeners == old(listeners) + (if listener.Some? then [listener.value] else [])
      ensures attemptTimeLimiter == old(attemptTimeLimiter) && stopStrategy == old(stopStrategy)
      ensures waitStrategy == old(waitStrategy) && blockStrategy == old(blockStrategy)
      ensures rejectionPredicate == old(rejectionPredicate)
    {
      if listener.None? {
        return Fail(NullPointer("listener may not be null"));
      }
      listeners := listeners + [listener.value];
      return Pass;
    }

    /** `withWaitStrategy`: the wait strategy can be set once; a null
        argument or a second call fails and leaves the builder as it was. */
    method WithWaitStrategy(strategy: Option<WaitStrategies.WaitStrategy>) returns (outcome: Outcome)
      requires strategy.Some? ==> WaitStrategies.Valid(strategy.value)
      modifies this
      ensures strategy.None? ==> outcome.Fail? && outcome.error.NullPointer?
      ensures strategy.Some? && old(waitStrategy).Some? ==> outcome.Fail? && outcome.error.IllegalState?
      ensures strategy.Some? && old(waitStrategy).None? ==> outcome.Pass?
      ensures waitStrategy == (if outcome.Pass? then strategy else old(waitStrategy))
      ensures attemptTimeLimiter == old(attemptTimeLimiter) && stopStrategy == old(stopStrategy)
      ensures blockStrategy == old(blockStrategy)
      ensures rejectionPredicate == old(rejectionPredicate) && listeners == old(listeners)
    {
      if strategy.None? {
        return Fail(NullPointer("waitStrategy may not be null"));
      }
      if waitStrategy.Some? {
        return Fail(IllegalState("a wait strategy has already been set"));
      }
      waitStrategy := strategy;
      return Pass;
    }

    /** `withStopStrategy`: set once, like the wait strategy. */
    method WithStopStrategy(strategy: Option<StopStrategies.StopStrategy>) returns (outcome: Outcome)
      requires strategy.Some? ==> StopStrategies.Valid(strategy.value)
      modifies this
      ensures strategy.None? ==> outcome.Fail? && outcome.error.NullPointer?
      ensures strategy.Some? && old(stopStrategy).Some? ==> outcome.Fail? && outcome.error.IllegalState?
      ensures strategy.Some? && old(stopStrategy).None? ==> outcome.Pass?
      ensures stopStrategy == (if outcome.Pass? then strategy else old(stopStrategy))
      ensures attemptTimeLimiter == old(attemptTimeLimiter) && waitStrategy == old(waitStrategy)
      ensures blockStrategy == old(blockStrategy)
      ensures rejectionPredicate == old(rejectionPredicate) && listeners == old(listeners)
    {
      if strategy.None? {
        return Fail(NullPointer("stopStrategy may not be null"));
      }
      if stopStrategy.Some? {
        return Fail(IllegalState("a stop strategy has already been set"));
      }
      stopStrategy := strategy;
      return Pass;
    }

    /** `withBlockStrategy`: set once, like the wait strategy. */
    method WithBlockStrategy(strategy: Option<BlockStrategy>) returns (outcome: Outcome)
      modifies this
      ensures strategy.None? ==> outcome.Fail? && outcome.error.NullPointer?
      ensures strategy.Some? && old(blockStrategy).Some? ==> outcome.Fail? && outcome.error.IllegalState?
      ensures strategy.Some? && old(blockStrategy).None? ==> outcome.Pass?
      ensures blockStrategy == (if outcome.Pass? then strategy else old(blockStrategy))
      ensures attemptTimeLimiter == old(attemptTimeLimiter) && stopStrategy == old(stopStrategy)
      ensures waitStrategy == old(waitStrategy)
      ensures rejectionPredicate == old(rejectionPredicate) && listeners == old(listeners)
    {
      if strategy.None? {
        return Fail(NullPointer("blockStrategy may not be null"));
      }
      if blockStrategy.Some? {
        return Fail(IllegalState("a block strategy has already been set"));
      }
      blockStrategy := strategy;
      return Pass;
    }

    /** OR-s one criterion into the rejection predicate; shared by the
        `retryIf*` methods. */
    method AddCriterion(criterion: AttemptPredicate<V>)
      modifies this
      ensures rejectionPredicate == Or(old(rejectionPredicate), criterion)
      ensures Criteria(rejectionPredicate) == Criteria(old(rejectionPredicate)) + [criterion]
      ensures forall a: Attempt<V> ::
                Holds(rejectionPredicate, a) <==> Holds(old(rejectionPredicate), a) || Apply(criterion, a)
      ensures attemptTimeLimiter == old(attemptTimeLimiter) && stopStrategy == old(stopStrategy)
      ensures waitStrategy == old(waitStrategy) && blockStrategy == old(blockStrategy)
      ensures listeners == old(listeners)
    {
      rejectionPredicate := Or(rejectionPredicate, criterion);
    }

    /** `retryIfException()`: also retry after any `Exception`. */
    method RetryIfException()
      modifies this
      ensures rejectionPredicate == Or(old(rejectionPredicate), ExceptionClassPredicate(Exception))
      ensures forall a: Attempt<V> ::
                Holds(rejectionPredicate, a) <==> Holds(old(rejectionPredicate), a) || Apply(ExceptionClassPredicate(Exception), a)
      ensures attemptTimeLimiter == old(attemptTimeLimiter) && stopStrategy == old(stopStrategy)
      ensures waitStrategy == old(waitStrategy) && blockStrategy == old(blockStrategy)
      ensures listeners == old(listeners)
    {
      AddCriterion(ExceptionClassPredicate(Exception));
    }

    /** `retryIfRuntimeException()`: also retry after any `RuntimeException`. */
    method RetryIfRuntimeException()
      modifies this
      ensures rejectionPredicate == Or(old(rejectionPredicate), ExceptionClassPredicate(RuntimeException))
      ensures forall a: Attempt<V> ::
                Holds(rejectionPredicate, a) <==> Holds(old(rejectionPredicate), a) || Apply(ExceptionClassPredicate(RuntimeException), a)
      ensures attemptTimeLimiter == old(attemptTimeLimiter) && stopStrategy == old(stopStrategy)
      ensures waitStrategy == old(waitStrategy) && blockStrategy == old(blockStrategy)
      ensures listeners == old(listeners)
    {
      AddCriterion(ExceptionClassPredicate(RuntimeException));
    }

    /** `retryIfExceptionOfType(exceptionClass)`. */
    method RetryIfExceptionOfType(exceptionClass: Option<ClassTag>) returns (outcome: Outcome)
      modifies this
      ensures exceptionClass.None? <==> outcome.Fail?
      ensures outcome.Fail? ==> outcome.error.NullPointer?
      ensures rejectionPredicate == (if exceptionClass.Some?
                                     then Or(old(rejectionPredicate), ExceptionClassPredicate(exceptionClass.value))
                                     else old(rejectionPredicate))
      ensures attemptTimeLimiter == old(attemptTimeLimiter) && stopStrategy == old(stopStrategy)
      ensures waitStrategy == old(waitStrategy) && blockStrategy == old(blockStrategy)
      ensures listeners == old(listeners)
    {
      if exceptionClass.None? {
        return Fail(NullPointer("exceptionClass may not be null"));
      }
      AddCriterion(ExceptionClassPredicate(exceptionClass.value));
      return Pass;
    }

    /** `retryIfException(exceptionPredicate)`. */
    method RetryIfExceptionMatching(exceptionPredicate: Option<ThrowableObject -> bool>) returns (outcome: Outcome)
      modifies this
      ensures exceptionPredicate.None? <==> outcome.Fail?
      ensures outcome.Fail? ==> outcome.error.NullPointer?
      ensures rejectionPredicate == (if exceptionPredicate.Some?
                                     then Or(old(rejectionPredicate), ExceptionPredicate(exceptionPredicate.value))
                                     else old(rejectionPredicate))
      ensures attemptTimeLimiter == old(attemptTimeLimiter) && stopStrategy == old(stopStrategy)
      ensures waitStrategy == old(waitStrategy) && blockStrategy == old(blockStrategy)
      ensures listeners == old(listeners)
    {
      if exceptionPredicate.None? {
        return Fail(NullPointer("exceptionPredicate may not be null"));
      }
      AddCriterion(ExceptionPredicate(exceptionPredicate.value));
      return Pass;
    }

    /** `retryIfResult(resultPredicate)`. */
    method RetryIfResult(resultPredicate: Option<V -> bool>) returns (outcome: Outcome)
      modifies this
      ensures resultPredicate.None? <==> outcome.Fail?
      ensures outcome.Fail? ==> outcome.error.NullPointer?
      ensures rejectionPredicate == (if resultPredicate.Some?
                                     then Or(old(rejectionPredicate), ResultPredicate(resultPredicate.value))
                                     else old(rejectionPredicate))
      ensures attemptTimeLimiter == old(attemptTimeLimiter) && stopStrategy == old(stopStrategy)
      ensures waitStrategy == old(waitStrategy) && blockStrategy == old(blockStrategy)
      ensures listeners == old(listeners)
    {
      if resultPredicate.None? {
        return Fail(NullPointer("resultPredicate may not be null"));
      }
      AddCriterion(ResultPredicate(resultPredicate.value));
      return Pass;
    }

    /** `build()`: every policy that was set is used as it is; for one that
        was not, the retryer gets no time limit, never stops, does not wait
        and blocks with `Thread.sleep`. The rejection predicate and the
        listeners pass through unchanged. */
    function Build(): (r: Retryer<V>)
      reads this
      ensures attemptTimeLimiter.Some? ==> r.attemptTimeLimiter == attemptTimeLimiter.value
      ensures attemptTimeLimiter.None? ==> r.attemptTimeLimiter == NoTimeLimit
      ensures stopStrategy.Some? ==> r.stopStrategy == stopStrategy.value
      ensures stopStrategy.None? ==> r.stopStrategy == StopStrategies.NeverStop()
      ensures waitStrategy.Some? ==> r.waitStrategy == waitStrategy.value
      ensures waitStrategy.None? ==> r.waitStrategy == WaitStrategies.NoWait()
      ensures blockStrategy.Some? ==> r.blockStrategy == blockStrategy.value
      ensures blockStrategy.None? ==> r.blockStrategy == ThreadSleepStrategy
      ensures r.rejectionPredicate == rejectionPredicate && r.listeners == listeners
      ensures Valid() ==> StopStrategies.Valid(r.stopStrategy) && WaitStrategies.Valid(r.waitStrategy)
    {
      Retryer(
        if attemptTimeLimiter.Some? then attemptTimeLimiter.value else NoTimeLimit,
        if stopStrategy.Some? then stopStrategy.value else StopStrategies.NeverStop(),
        if waitStrategy.Some? then waitStrategy.value else WaitStrategies.NoWait(),
        if blockStrategy.Some? then blockStrategy.value else ThreadSleepStrategy,
        rejectionPredicate,
        listeners)
    }
  }

  /** A retryer built from a fresh builder never retries, never stops and
      never waits. */
  method DefaultRetryer<V>() returns (r: Retryer<V>)
    ensures forall a: Attempt<V> :: !Holds(r.rejectionPredicate, a)
    ensures forall a: Attempt<V> :: !StopStrategies.ShouldStop(r.stopStrategy, a)
    ensures StopStrategies.Valid(r.stopStrategy)
    ensures WaitStrategies.Valid(r.waitStrategy) && WaitStrategies.DrawCount(r.waitStrategy) == 0
    ensures forall a: Attempt<V> :: WaitStrategies.SleepTime(r.waitStrategy, a, []) == 0
    ensures r.attemptTimeLimiter == NoTimeLimit && r.blockStrategy == ThreadSleepStrategy
    ensures r.listeners == []
  {
    var builder := new RetryerBuilder<V>();
    r := builder.Build();
  }

  /** The configuration of the example in `RetryerTest`: retry while the
      result is `false`, stop after five attempts, and wait two seconds after
      the first attempt and one second longer after each further one. A
      second stop strategy is refused and changes nothing. */
  method ExampleConfiguration() returns (r: Retryer<bool>)
    ensures StopStrategies.Valid(r.stopStrategy) && WaitStrategies.Valid(r.waitStrategy)
    ensures r.stopStrategy == StopStrategies.StopAfterAttemptStrategy(5)
    ensures r.waitStrategy == WaitStrategies.IncrementingWaitStrategy(2000, 1000)
    ensures |Criteria(r.rejectionPredicate)| == 1
    ensures forall a: Attempt<bool> :: Holds(r.rejectionPredicate, a) <==> a.HasResult() && !a.result
    ensures forall a: Attempt<bool> :: a.attemptNumber <= 5 ==>
              WaitStrategies.SleepTime(r.waitStrategy, a, []) == 2000 + 1000 * (a.attemptNumber - 1)
  {
    var builder := new RetryerBuilder<bool>();
    var _ := builder.RetryIfResult(Some((result: bool) => result == false));
    var stop := StopStrategies.StopAfterAttempt(5);
    var _ := builder.WithStopStrategy(Some(stop.value));
    var wait := WaitStrategies.IncrementingWait(2, Some(SECONDS), 1, Some(SECONDS));
    assert ToMillis(2, SECONDS) == 2000 && ToMillis(1, SECONDS) == 1000;
    var _ := builder.WithWaitStrategy(Some(wait.value));
    var again := builder.WithStopStrategy(Some(StopStrategies.NeverStop()));
    assert again.Fail?;
    r := builder.Build();
  }
}
