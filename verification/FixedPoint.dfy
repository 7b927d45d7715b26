/**
  Q16.16 arithmetic on 32-bit words (bare_metal_foc/include/foc_types.h).

  A C `int32_t` is an `int` in the subset type `q16`; every place where the C code stores
  a wider value in 32 bits goes through `Wrap32`, so leaving the range is visible in the
  model. `>>` is floor division and C's `/` truncates toward zero.
 */
module FixedPoint {

  const Q16_ONE := 65536
  const Q16_SQRT3 := 113512
  const Q16_PI := 205887
  const Q16_PI_OVER_2 := 102944
  const Q16_PI_OVER_4 := 51472
  const Q16_TWO_PI := 411775

  predicate InInt32(x: int) {
    -0x8000_0000 <= x < 0x8000_0000
  }

  type q16 = x: int | -0x8000_0000 <= x < 0x8000_0000

  /** Two's-complement reduction to 32 bits. */
  function Wrap32(x: int): (r: q16)
    ensures InInt32(x) <==> r == x
    ensures (r - x) % 0x1_0000_0000 == 0
  {
    (x + 0x8000_0000) % 0x1_0000_0000 - 0x8000_0000
  }

  /** C integer division by a positive divisor: the quotient is truncated toward zero. */
  function TruncDiv(a: int, b: int): (q: int)
    requires b > 0
    ensures a >= 0 ==> q >= 0 && q * b <= a < q * b + b
    ensures a <= 0 ==> q <= 0 && q * b - b < a <= q * b
  {
    if a >= 0 then a / b else -((-a) / b)
  }

  /** Arithmetic right shift by 16. */
  function Shr16(x: int): (r: int)
    ensures 65536 * r <= x < 65536 * r + 65536
  {
    x / 65536
  }

  /** `(a * b) >> 16` in 64 bits. */
  function MulShift(a: int, b: int): int {
    Shr16(a * b)
  }

  /** `q16_mul`: the 64-bit product, shifted and stored in 32 bits. */
  function Q16Mul(a: q16, b: q16): q16 {
    Wrap32(MulShift(a, b))
  }
}
