/** Three wait computations with the step the source performs in wrapping
    Java `long` arithmetic written out as such, each beside an input on which
    it departs from the policy's evident intent; module WaitStrategies models
    the intended behaviour, and the lemmas here also show where the two agree.
    Only that step wraps: the as-written join adds up the parts' intended
    delays (`SleepTime`), so a part that is itself a Fibonacci wait or a join
    contributes its intended delay. */
module WaitFindings {
  import opened JavaLang
  import opened Attempts
  import opened WaitStrategies

  const TWO_TO_62: int := 0x4000_0000_0000_0000
  const TWO_TO_63: int := 0x8000_0000_0000_0000

  // ---------------------------------------------------------------------
  // Random wait: `Math.abs(RANDOM.nextLong()) % (maximum - minimum) + minimum`.

  function RandomSleepAsWritten(minimum: Long, maximum: Long, nextLong: Long): (r: int)
    requires 0 <= minimum < maximum
    ensures r < maximum
    ensures nextLong != LONG_MIN ==> r == RandomSleep(minimum, maximum, Abs(nextLong))
  {
    Rem(Abs(nextLong), maximum - minimum) + minimum
  }

  /** The one draw `Math.abs` leaves negative lands below the minimum, by the
      remainder of 2^63 modulo the width of the range. */
  lemma RandomSleepAsWrittenAtMinValue(minimum: Long, maximum: Long)
    requires 0 <= minimum < maximum
    ensures RandomSleepAsWritten(minimum, maximum, LONG_MIN) == minimum - TWO_TO_63 % (maximum - minimum)
  {
  }

  /** `randomWait(3, MILLISECONDS)` can sleep -2 milliseconds. */
  lemma RandomSleepAsWrittenGoesNegative()
    ensures NewRandomWaitStrategy(0, 3).Ok?
    ensures RandomSleepAsWritten(0, 3, LONG_MIN) == -2
  {
    RandomSleepAsWrittenAtMinValue(0, 3);
  }

  // ---------------------------------------------------------------------
  // Fibonacci wait: `fib` adds in `long`, the product `multiplier * fib`
  // wraps, and only a negative or too-large product is replaced by the cap.

  /** What the source's `fib` loop returns: each addition wraps, so the
      result is the exact Fibonacci number wrapped once into the `long`
      range. */
  function FibLong(n: nat): (r: Long)
    ensures r == Wrap(Fib(n))
  {
    if n < 2 then n
    else
      WrapAdd(Fib(n - 1), Fib(n - 2));
      Wrap(FibLong(n - 1) + FibLong(n - 2))
  }

  /** While the Fibonacci numbers fit in a `long`, the wrapping loop computes
      them exactly. */
  lemma FibLongExact(n: nat)
    requires Fib(n) <= LONG_MAX
    ensures FibLong(n) == Fib(n)
  {
  }

  function FibonacciSleepAsWritten(multiplier: Long, maximumWait: Long, attemptNumber: AttemptNumber): (r: Long)
    requires multiplier > 0 && maximumWait >= 0
    ensures 0 <= r <= maximumWait
  {
    var result := Wrap(multiplier * FibLong(attemptNumber));
    if result > maximumWait || result < 0 then maximumWait else result
  }

  /** Without overflow the code as written and the intended policy agree. */
  lemma FibonacciAsWrittenAgreesWithoutOverflow(multiplier: Long, maximumWait: Long, n: AttemptNumber)
    requires multiplier > 0 && maximumWait >= 0
    requires multiplier * Fib(n) <= LONG_MAX
    ensures FibonacciSleepAsWritten(multiplier, maximumWait, n) == FibonacciSleep(multiplier, maximumWait, n)
  {
    var f := Fib(n);
    FibMonotone(1, n);
    MulMonotone(multiplier, 1, f);
    FibLongExact(n);
    var product := multiplier * f;
    assert 0 < product <= LONG_MAX;
    assert Wrap(multiplier * FibLong(n)) == product by {
      assert multiplier * FibLong(n) == product;
    }
  }

  /** With multiplier 2^62 and no cap below `Long.MAX_VALUE`, attempt 4 waits
      `Long.MAX_VALUE` but attempt 5 only 2^62: the product 5 * 2^62 wraps to
      a positive value the `result < 0` guard does not catch. */
  lemma FibonacciAsWrittenNotMonotone()
    ensures NewFibonacciWaitStrategy(TWO_TO_62, LONG_MAX).Ok?
    ensures FibonacciSleepAsWritten(TWO_TO_62, LONG_MAX, 4) == LONG_MAX
    ensures FibonacciSleepAsWritten(TWO_TO_62, LONG_MAX, 5) == TWO_TO_62 < LONG_MAX
    ensures FibonacciSleep(TWO_TO_62, LONG_MAX, 5) == LONG_MAX
  {
    assert FibLong(2) == 1 && FibLong(3) == 2 && FibLong(4) == 3 && FibLong(5) == 5;
    assert Fib(2) == 1 && Fib(3) == 2 && Fib(4) == 3 && Fib(5) == 5;
  }

  // ---------------------------------------------------------------------
  // Join: `waitTime += waitStrategy.computeSleepTime(failedAttempt)` wraps.

  /** What the source's accumulation loop returns: each addition wraps, so
      the result is the exact ordered sum wrapped once into the `long`
      range. */
  function JoinSleepAsWritten<V>(ws: seq<WaitStrategy>, a: Attempt<V>, draws: seq<nat>): (r: Long)
    requires forall i :: 0 <= i < |ws| ==> Valid(ws[i])
    requires |draws| >= DrawsOf(ws)
    ensures r == Wrap(JoinSum(ws, a, draws))
  {
    if ws == [] then 0
    else
      var init := ws[..|ws| - 1];
      var last := SleepTime(ws[|ws| - 1], a, draws[DrawsOf(init)..]);
      WrapAdd(JoinSum(init, a, draws), last);
      Wrap(JoinSleepAsWritten(init, a, draws) + last)
  }

  /** Whenever the exact sum of the join fits in a `long`, the wrapping loop
      computes it, even if a running total overflowed on the way. */
  lemma JoinAsWrittenExact<V>(ws: seq<WaitStrategy>, a: Attempt<V>, draws: seq<nat>)
    requires forall i :: 0 <= i < |ws| ==> Valid(ws[i])
    requires |draws| >= DrawsOf(ws)
    requires LONG_MIN <= JoinSum(ws, a, draws) <= LONG_MAX
    ensures JoinSleepAsWritten(ws, a, draws) == JoinSum(ws, a, draws)
  {
  }

  /** Joining `Fixed(Long.MAX_VALUE)` and `Fixed(1)` sleeps `Long.MIN_VALUE`
      as written, where the saturating join sleeps `Long.MAX_VALUE`. */
  lemma JoinAsWrittenGoesNegative<V>(a: Attempt<V>)
    ensures var ws := [FixedWaitStrategy(LONG_MAX), FixedWaitStrategy(1)];
            Valid(CompositeWaitStrategy(ws))
            && DrawsOf(ws) == 0
            && JoinSleepAsWritten(ws, a, []) == LONG_MIN
            && SleepTime(CompositeWaitStrategy(ws), a, []) == LONG_MAX
  {
    var ws := [FixedWaitStrategy(LONG_MAX), FixedWaitStrategy(1)];
    assert ws[..1] == [FixedWaitStrategy(LONG_MAX)] && ws[..1][..0] == [];
    assert ws[..|ws| - 1] == ws[..1];
    assert DrawsOf(ws[..1]) == 0;
    assert DrawsOf(ws) == DrawsOf(ws[..1]) + DrawCount(ws[1]) == 0;
    assert JoinSleepAsWritten(ws[..1], a, []) == LONG_MAX;
    assert JoinSum(ws[..1], a, []) == LONG_MAX;
  }
}
