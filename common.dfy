/**
 * Values shared by every part of the model: Java's exceptions as data, the
 * 32-bit `int` range, and the two numeric conversions the code relies on,
 * `Math.round(double)` (a `long`) and the narrowing cast `(int)` of a `long`.
 */
module Common {

  datatype Option<T> = None | Some(value: T)

  /** The unchecked exceptions that the modelled Java code can raise. */
  datatype JavaException = IndexOutOfBounds | NegativeArraySize | NumberFormat

  /** A value, or the exception thrown instead of returning it. */
  datatype Result<T> = Success(value: T) | Failure(exception: JavaException)

  /** A `void` call that returned normally, or threw. */
  datatype Outcome = Pass | Fail(exception: JavaException)

  const LongMin: int := -0x8000_0000_0000_0000
  const LongMax: int := 0x7FFF_FFFF_FFFF_FFFF

  /** Java's `int`. */
  type Int32 = x: int | -0x8000_0000 <= x < 0x8000_0000

  /** `Math.round(x)`: floor(x + 1/2), saturated to the range of `long`. */
  function RoundToLong(x: real): (r: int)
    ensures LongMin <= r <= LongMax
    ensures LongMin < r < LongMax ==> (r as real) <= x + 0.5 < (r as real) + 1.0
  {
    var f := (x + 0.5).Floor;
    if f < LongMin then LongMin else if f > LongMax then LongMax else f
  }

  /** The narrowing cast `(int)` of a `long`: keep the low 32 bits, two's complement. */
  function LongToInt(x: int): (r: Int32)
    requires LongMin <= x <= LongMax
    ensures (r - x) % 0x1_0000_0000 == 0
    ensures -0x8000_0000 <= x < 0x8000_0000 ==> r == x
  {
    var m := x % 0x1_0000_0000;
    if m >= 0x8000_0000 then m - 0x1_0000_0000 else m
  }
}
