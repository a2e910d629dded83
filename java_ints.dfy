/** Java's fixed-width integer types and the two ways Java narrows a wider
    value into an `int`. */
module JavaInts {

  const INT_MIN: int := -0x8000_0000
  const INT_MAX: int := 0x7fff_ffff
  const LONG_MIN: int := -0x8000_0000_0000_0000
  const LONG_MAX: int := 0x7fff_ffff_ffff_ffff

  /** Java `int`. */
  type Int32 = x: int | -0x8000_0000 <= x <= 0x7fff_ffff

  /** Java `long`. */
  type Int64 = x: int | -0x8000_0000_0000_0000 <= x <= 0x7fff_ffff_ffff_ffff

  /** The cast `(int) v` of a `long` value: keeps the low 32 bits. */
  function WrapToInt(v: int): (r: Int32)
    ensures (r - v) % 0x1_0000_0000 == 0
    ensures INT_MIN <= v <= INT_MAX ==> r == v
  {
    (v - INT_MIN) % 0x1_0000_0000 + INT_MIN
  }

  /** The cast `(int) d` of an integral `double` (or of +infinity): values
      outside the `int` range are clamped to its nearest end. */
  function SaturateToInt(v: int): (r: Int32)
    ensures INT_MIN <= v <= INT_MAX ==> r == v
    ensures v > INT_MAX ==> r == INT_MAX
    ensures v < INT_MIN ==> r == INT_MIN
  {
    if v > INT_MAX then INT_MAX else if v < INT_MIN then INT_MIN else v
  }
}
