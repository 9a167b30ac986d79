/** `java.util.concurrent.TimeUnit`, as far as the factories use it: the
    conversion of a duration to milliseconds. */
module TimeUnits {
  import opened JavaLang

  datatype TimeUnit =
    | NANOSECONDS
    | MICROSECONDS
    | MILLISECONDS
    | SECONDS
    | MINUTES
    | HOURS
    | DAYS

  lemma MulNonNegative(x: int, y: int)
    requires x >= 0 && y >= 0
    ensures x * y >= 0
  {
  }

  lemma MulDistributes(x: int, y: int, m: int)
    ensures (x + y) * m == x * m + y * m
  {
  }

  /** The truncated quotient of `Long.MAX_VALUE` by `m` is the largest
      number whose multiple of `m` still fits. */
  lemma QuotientOfMax(m: int)
    requires m > 0
    ensures (LONG_MAX / m) * m <= LONG_MAX < (LONG_MAX / m + 1) * m
  {
    MulDistributes(LONG_MAX / m, 1, m);
  }

  lemma MulNegates(x: int, m: int)
    ensures (-x) * m == -(x * m)
  {
    MulDistributes(x, -x, m);
  }

  /** Past the upper threshold of `SaturatedScale` the product overflows. */
  lemma AboveThreshold(d: int, m: int)
    requires m > 0 && d > LONG_MAX / m
    ensures d * m > LONG_MAX
  {
    var q := LONG_MAX / m;
    QuotientOfMax(m);
    MulDistributes(d - q - 1, q + 1, m);
    MulNonNegative(d - q - 1, m);
  }

  /** Up to the upper threshold of `SaturatedScale` a non-negative product
      fits. */
  lemma UpToThreshold(d: int, m: int)
    requires m > 0 && 0 <= d <= LONG_MAX / m
    ensures 0 <= d * m <= LONG_MAX
  {
    var q := LONG_MAX / m;
    QuotientOfMax(m);
    MulDistributes(d, q - d, m);
    MulNonNegative(q - d, m);
    MulNonNegative(d, m);
  }

  /** The thresholds `SaturatedScale` compares against are exactly where the
      product leaves the `long` range, in both directions. */
  lemma ScaleThresholds(d: int, m: int)
    requires m > 0
    ensures d > LONG_MAX / m ==> d * m > LONG_MAX
    ensures d < -(LONG_MAX / m) ==> d * m <= LONG_MIN
    ensures -(LONG_MAX / m) <= d <= LONG_MAX / m ==> LONG_MIN < d * m <= LONG_MAX
  {
    MulNegates(d, m);
    if d > LONG_MAX / m {
      AboveThreshold(d, m);
    } else if d < -(LONG_MAX / m) {
      AboveThreshold(-d, m);
    } else if d >= 0 {
      UpToThreshold(d, m);
    } else {
      UpToThreshold(-d, m);
    }
  }

  /** A duration `d` of a unit coarser than a millisecond, times `millisPer`
      milliseconds per unit: the product is refused past `Long.MAX_VALUE /
      millisPer` in either direction and replaced by the bound it crossed,
      which is the same as saturating the exact product. */
  function SaturatedScale(d: Long, millisPer: int): (r: Long)
    requires millisPer > 0
    ensures r == Saturate(d * millisPer)
  {
    ScaleThresholds(d, millisPer);
    if d > LONG_MAX / millisPer then LONG_MAX
    else if d < -(LONG_MAX / millisPer) then LONG_MIN
    else d * millisPer
  }

  /** `unit.toMillis(d)`: truncating toward zero for units finer than a
      millisecond, exact for milliseconds, and the saturated product for
      coarser units. */
  function ToMillis(d: Long, unit: TimeUnit): (r: Long)
    ensures unit == NANOSECONDS && d >= 0 ==> r * 1_000_000 <= d < (r + 1) * 1_000_000
    ensures unit == NANOSECONDS && d < 0 ==> (r - 1) * 1_000_000 < d <= r * 1_000_000
    ensures unit == MICROSECONDS && d >= 0 ==> r * 1_000 <= d < (r + 1) * 1_000
    ensures unit == MICROSECONDS && d < 0 ==> (r - 1) * 1_000 < d <= r * 1_000
    ensures unit == MILLISECONDS ==> r == d
    ensures unit == SECONDS ==> r == Saturate(d * 1_000)
    ensures unit == MINUTES ==> r == Saturate(d * 60_000)
    ensures unit == HOURS ==> r == Saturate(d * 3_600_000)
    ensures unit == DAYS ==> r == Saturate(d * 86_400_000)
    ensures d >= 0 ==> r >= 0
    ensures d <= 0 ==> r <= 0
    ensures unit in {MILLISECONDS, SECONDS, MINUTES, HOURS, DAYS} && d != 0 ==> r != 0
  {
    match unit
    case NANOSECONDS => Quot(d, 1_000_000)
    case MICROSECONDS => Quot(d, 1_000)
    case MILLISECONDS => d
    case SECONDS => SaturatedScale(d, 1_000)
    case MINUTES => SaturatedScale(d, 60_000)
    case HOURS => SaturatedScale(d, 3_600_000)
    case DAYS => SaturatedScale(d, 86_400_000)
  }
}
