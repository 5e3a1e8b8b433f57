/** Java's fixed-width integer types and the conversions the metrics classes rely on:
    two's-complement wrap-around of `int` and `long` arithmetic, and the `(long)` cast
    of a floating-point value, stated over mathematical reals. */
module JavaNumerics {

  const TWO_31: int := 0x8000_0000
  const TWO_32: int := 0x1_0000_0000
  const TWO_63: int := 0x8000_0000_0000_0000
  const TWO_64: int := 0x1_0000_0000_0000_0000

  /** Java `int` */
  newtype int32 = x: int | -0x8000_0000 <= x < 0x8000_0000

  /** Java `long` */
  newtype int64 = x: int | -0x8000_0000_0000_0000 <= x < 0x8000_0000_0000_0000

  const MIN_LONG: int64 := -0x8000_0000_0000_0000
  const MAX_LONG: int64 := 0x7FFF_FFFF_FFFF_FFFF

  /** The `int` that a Java `int` expression with mathematical value `x` evaluates to. */
  function Wrap32(x: int): (r: int32)
    ensures (r as int - x) % TWO_32 == 0
    ensures -TWO_31 <= x < TWO_31 ==> r as int == x
  {
    ((x + TWO_31) % TWO_32 - TWO_31) as int32
  }

  /** The `long` that a Java `long` expression with mathematical value `x` evaluates to. */
  function Wrap64(x: int): (r: int64)
    ensures (r as int - x) % TWO_64 == 0
    ensures -TWO_63 <= x < TWO_63 ==> r as int == x
  {
    ((x + TWO_63) % TWO_64 - TWO_63) as int64
  }

  /** Wrapping an intermediate result does not change the final wrapped value. */
  lemma Wrap32AddLeft(x: int, y: int)
    ensures Wrap32(Wrap32(x) as int + y) == Wrap32(x + y)
  {
  }

  lemma Wrap64AddLeft(x: int, y: int)
    ensures Wrap64(Wrap64(x) as int + y) == Wrap64(x + y)
  {
  }

  lemma Wrap64AddRight(x: int, y: int)
    ensures Wrap64(x + Wrap64(y) as int) == Wrap64(x + y)
  {
    Wrap64AddLeft(y, x);
  }

  /** Rounding of a real toward zero, as Java's narrowing conversion does. */
  function Truncate(x: real): (r: int)
    ensures 0.0 <= x ==> 0 <= r && r as real <= x < r as real + 1.0
    ensures x < 0.0 ==> r <= 0 && r as real - 1.0 < x <= r as real
  {
    if 0.0 <= x then x.Floor else -((-x).Floor)
  }

  /** Java's `(long)` cast of a (finite) double: rounds toward zero and saturates at the
      bounds of `long`. */
  function DoubleToLong(x: real): (r: int64)
    ensures MIN_LONG as real < x < MAX_LONG as real ==> r as int == Truncate(x)
    ensures MAX_LONG as real <= x ==> r == MAX_LONG
    ensures x <= MIN_LONG as real ==> r == MIN_LONG
  {
    if MAX_LONG as real <= x then MAX_LONG
    else if x <= MIN_LONG as real then MIN_LONG
    else Truncate(x) as int64
  }
}
