/** The parts of `java.lang` the policies depend on: the 64-bit `long` and
    32-bit `int` ranges with their wrap-around, Java's truncating `%`,
    `Math.abs`, and the exception class hierarchy that `Class.isAssignableFrom`
    consults. */
module JavaLang {

  const LONG_MIN: int := -0x8000_0000_0000_0000
  const LONG_MAX: int := 0x7FFF_FFFF_FFFF_FFFF
  const TWO_TO_64: int := 0x1_0000_0000_0000_0000
  const INT_MIN: int := -0x8000_0000
  const INT_MAX: int := 0x7FFF_FFFF

  /** A Java `long`. */
  type Long = x: int | LONG_MIN <= x <= LONG_MAX

  /** A Java `int`. */
  type Int = x: int | INT_MIN <= x <= INT_MAX

  /** The `long` that Java's two's-complement arithmetic leaves when the exact
      result is `x`: the one value in the `long` range congruent to `x`
      modulo 2^64. */
  function Wrap(x: int): (r: Long)
    ensures LONG_MIN <= x <= LONG_MAX ==> r == x
    ensures (x - r) % TWO_TO_64 == 0
  {
    (x - LONG_MIN) % TWO_TO_64 + LONG_MIN
  }

  /** Wrapping the operands of an addition first changes nothing: a chain of
      wrapping additions ends where one wrap of the exact sum does. */
  lemma WrapAdd(x: int, y: int)
    ensures Wrap(Wrap(x) + Wrap(y)) == Wrap(x + y)
  {
    var qx := (x - LONG_MIN) / TWO_TO_64;
    var qy := (y - LONG_MIN) / TWO_TO_64;
    assert Wrap(x) == x - TWO_TO_64 * qx;
    assert Wrap(y) == y - TWO_TO_64 * qy;
    WrapShift(x + y, -(qx + qy));
  }

  /** Adding a multiple of 2^64 does not change the wrapped value. */
  lemma WrapShift(z: int, k: int)
    ensures Wrap(z + TWO_TO_64 * k) == Wrap(z)
  {
    var q := (z - LONG_MIN) / TWO_TO_64;
    var q' := (z + TWO_TO_64 * k - LONG_MIN) / TWO_TO_64;
    var d := q' - q - k;
    assert Wrap(z) == z - TWO_TO_64 * q;
    assert Wrap(z + TWO_TO_64 * k) == z - TWO_TO_64 * (q' - k);
    assert Wrap(z + TWO_TO_64 * k) - Wrap(z) == -TWO_TO_64 * d;
  }

  /** `Math.abs(long)`: the negation of `Long.MIN_VALUE` overflows back to
      `Long.MIN_VALUE`, so that is the one argument whose result is negative. */
  function Abs(x: Long): (r: Long)
    ensures x != LONG_MIN ==> r >= 0 && (r == x || r == -x)
    ensures x == LONG_MIN ==> r == LONG_MIN
  {
    if x >= 0 then x else Wrap(-(x as int))
  }

  /** The distance between two integers. */
  function Dist(x: int, y: int): nat {
    if x >= y then x - y else y - x
  }

  /** An exact value brought back into the `long` range by saturation: the
      `long` nearest to it. */
  function Saturate(x: int): (r: Long)
    ensures forall y: Long :: Dist(r, x) <= Dist(y, x)
  {
    if x > LONG_MAX then LONG_MAX else if x < LONG_MIN then LONG_MIN else x
  }

  /** Java's `/` on a positive divisor: the quotient is truncated toward
      zero, so it has the dividend's sign and no larger a magnitude. */
  function Quot(a: Long, b: Long): (q: int)
    requires b > 0
    ensures a >= 0 ==> 0 <= q && q * b <= a < (q + 1) * b
    ensures a < 0 ==> q <= 0 && (q - 1) * b < a <= q * b
  {
    if a >= 0 then a / b else -((-(a as int)) / b)
  }

  /** Java's `%` on a positive divisor: what is left of the dividend once the
      truncated quotient's multiple of the divisor is taken away, so it has
      the sign of the dividend. */
  function Rem(a: Long, b: Long): (r: Long)
    requires b > 0
    ensures -b < r < b
    ensures a >= 0 ==> r >= 0
    ensures a < 0 ==> r <= 0
    ensures a == Quot(a, b) * b + r
  {
    if a >= 0 then a % b else -((-(a as int)) % b)
  }

  /** The exception classes a cause can have; a stand-in for the open set of
      Java classes, with the JDK's own subclass links. */
  datatype ClassTag =
    | Throwable
    | Exception
    | Error
    | RuntimeException
    | IOException
    | InterruptedException
    | TimeoutException
    | ExecutionException
    | IllegalArgumentException
    | IllegalStateException
    | NullPointerException
    | VirtualMachineError
    | OutOfMemoryError

  /** The direct superclass of every class but `Throwable`. */
  function Parent(c: ClassTag): ClassTag
    requires c != Throwable
  {
    match c
    case Exception | Error => Throwable
    case RuntimeException | IOException | InterruptedException
       | TimeoutException | ExecutionException => Exception
    case IllegalArgumentException | IllegalStateException
       | NullPointerException => RuntimeException
    case VirtualMachineError => Error
    case OutOfMemoryError => VirtualMachineError
  }

  /** How many superclass links lead from `c` up to `Throwable`. */
  function Depth(c: ClassTag): (d: nat)
    ensures d == 0 <==> c == Throwable
  {
    match c
    case Throwable => 0
    case Exception | Error => 1
    case RuntimeException | IOException | InterruptedException
       | TimeoutException | ExecutionException | VirtualMachineError => 2
    case IllegalArgumentException | IllegalStateException
       | NullPointerException | OutOfMemoryError => 3
  }

  /** `sup.isAssignableFrom(sub)`: `sub` is `sup` or one of its subclasses. */
  predicate IsSubtype(sub: ClassTag, sup: ClassTag): (r: bool)
    ensures sub == sup ==> r
    ensures r ==> Depth(sub) >= Depth(sup)
    ensures sup == Throwable ==> r
    decreases Depth(sub)
  {
    sub == sup || (sub != Throwable && IsSubtype(Parent(sub), sup))
  }

  lemma IsSubtypeReflexive(c: ClassTag)
    ensures IsSubtype(c, c)
  {
  }

  lemma {:induction false} IsSubtypeTransitive(a: ClassTag, b: ClassTag, c: ClassTag)
    requires IsSubtype(a, b) && IsSubtype(b, c)
    ensures IsSubtype(a, c)
    decreases Depth(a)
  {
    if a != b {
      IsSubtypeTransitive(Parent(a), b, c);
    }
  }

  /** A subclass lies at least as deep as its superclass. */
  lemma {:induction false} IsSubtypeDepth(sub: ClassTag, sup: ClassTag)
    requires IsSubtype(sub, sup)
    ensures Depth(sub) >= Depth(sup)
    ensures Depth(sub) == Depth(sup) ==> sub == sup
    decreases Depth(sub)
  {
    if sub != sup {
      IsSubtypeDepth(Parent(sub), sup);
    }
  }

  lemma IsSubtypeAntisymmetric(a: ClassTag, b: ClassTag)
    requires IsSubtype(a, b) && IsSubtype(b, a)
    ensures a == b
  {
    IsSubtypeDepth(a, b);
    IsSubtypeDepth(b, a);
  }

  /** Every class is assignable to `Throwable`. */
  lemma {:induction false} IsSubtypeOfThrowable(c: ClassTag)
    ensures IsSubtype(c, Throwable)
    decreases Depth(c)
  {
    if c != Throwable {
      IsSubtypeOfThrowable(Parent(c));
    }
  }

  /** A thrown object: its runtime class and its message. */
  datatype ThrowableObject = ThrowableObject(cls: ClassTag, message: string)
}
