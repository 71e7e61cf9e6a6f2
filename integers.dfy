/**
 * Go's fixed-width signed integers and its truncating division.
 *
 * Dafny's `int` is unbounded and its `/` and `%` are Euclidean; Go's `int32`
 * and `int64` are two's-complement and Go's `/` and `%` truncate toward zero.
 * This module writes both out explicitly.
 */
module Integers {

  const MIN_INT32: int := -0x8000_0000
  const MAX_INT32: int := 0x7fff_ffff
  const MIN_INT64: int := -0x8000_0000_0000_0000
  const MAX_INT64: int := 0x7fff_ffff_ffff_ffff

  type Int32 = x: int | MIN_INT32 <= x <= MAX_INT32
  type Int64 = x: int | MIN_INT64 <= x <= MAX_INT64

  predicate InInt64(x: int) {
    MIN_INT64 <= x <= MAX_INT64
  }

  /**
   * The conversion `int32(v)`: keep the low 32 bits of `v` and read them as a
   * two's-complement number.
   */
  function WrapInt32(v: int): (r: Int32)
    ensures (r - v) % 0x1_0000_0000 == 0
    ensures MIN_INT32 <= v <= MAX_INT32 ==> r == v
  {
    (v - MIN_INT32) % 0x1_0000_0000 + MIN_INT32
  }

  /** `int32(v)` is the one `int32` that agrees with `v` modulo 2^32. */
  lemma WrapInt32Unique(v: int, r: Int32)
    requires (r - v) % 0x1_0000_0000 == 0
    ensures r == WrapInt32(v)
  {
  }

  /** Values just outside the `int32` range wrap around to the other end. */
  lemma WrapInt32Examples()
    ensures WrapInt32(0x1_0000_002a) == 42
    ensures WrapInt32(MAX_INT32 + 1) == MIN_INT32
    ensures WrapInt32(MIN_INT32 - 1) == MAX_INT32
    ensures WrapInt32(-1) == -1
  {
  }

  /** Go's `a / b` for a positive divisor: the quotient rounded toward zero. */
  function TruncDiv(a: int, b: int): (q: int)
    requires b > 0
    ensures a >= 0 ==> 0 <= b * q <= a < b * q + b
    ensures a < 0 ==> b * q - b < a <= b * q <= 0
  {
    if a >= 0 then
      EuclideanDivision(a, b);
      a / b
    else
      EuclideanDivision(-a, b);
      -((-a) / b)
  }

  lemma EuclideanDivision(n: nat, b: int)
    requires b > 0
    ensures 0 <= b * (n / b) <= n < b * (n / b) + b
  {
  }

  /** Go's `a % b` for a positive divisor: the remainder takes the sign of `a`. */
  function TruncRem(a: int, b: int): (r: int)
    requires b > 0
    ensures a == b * TruncDiv(a, b) + r
    ensures -b < r < b
    ensures a >= 0 ==> r >= 0
    ensures a <= 0 ==> r <= 0
  {
    a - b * TruncDiv(a, b)
  }
}
