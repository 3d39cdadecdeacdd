/** Fixed-width integers that clamp at the ends of their range instead of wrapping. */
module Saturating {

  const I64_MIN := -0x8000_0000_0000_0000
  const I64_MAX := 0x7FFF_FFFF_FFFF_FFFF
  const U8_MAX := 0xFF
  const U32_MAX := 0xFFFF_FFFF
  const U64_MAX := 0xFFFF_FFFF_FFFF_FFFF

  type I64 = x: int | I64_MIN <= x <= I64_MAX
  type U8 = x: nat | x <= U8_MAX
  type U32 = x: nat | x <= U32_MAX
  type U64 = x: nat | x <= U64_MAX

  function Clamp(x: int): I64 {
    if x < I64_MIN then I64_MIN else if x > I64_MAX then I64_MAX else x
  }

  function SatAdd(a: I64, b: I64): I64 {
    Clamp(a + b)
  }

  function SatSub(a: I64, b: I64): I64 {
    Clamp(a - b)
  }

  function Max(a: int, b: int): int {
    if a >= b then a else b
  }

  function Min(a: int, b: int): int {
    if a <= b then a else b
  }
}
