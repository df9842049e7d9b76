/** The machine integers of the source. */
module Integers {

  const TWO63: int := 0x8000_0000_0000_0000
  const TWO64: int := 0x1_0000_0000_0000_0000

  type U64 = x: int | 0 <= x < TWO64

  /** Unchecked `uint64` addition: it wraps. */
  function Add64(a: U64, b: U64): (c: U64)
    ensures a + b < TWO64 <==> c == a + b
  {
    if a + b < TWO64 then a + b else a + b - TWO64
  }

  /** The conversion `int64(x)` of an unsigned value. */
  function ToInt64(x: U64): (y: int)
    ensures -TWO63 <= y < TWO63
    ensures x < TWO63 <==> y == x
  {
    if x < TWO63 then x else x - TWO64
  }

  /** Unchecked `int64` addition of two values in range. */
  function WrapInt64(x: int): (y: int)
    requires -TWO64 <= x < TWO64
    ensures -TWO63 <= y < TWO63
    ensures -TWO63 <= x < TWO63 ==> y == x
  {
    if x < -TWO63 then x + TWO64 else if x >= TWO63 then x - TWO64 else x
  }

  /** Block times in seconds: after 1 January 1970 and up to the end of the year 9999,
      the last instant a protobuf timestamp can hold. */
  type UnixTime = t: int | 0 < t <= 253402300799 witness 1
}
