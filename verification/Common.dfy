/** Types and machine widths shared by the models. */
module Common {

  datatype Option<T> = None | Some(value: T)

  type Byte = b: int | 0 <= b < 256

  const I16_MIN := -0x8000
  const I16_MAX := 0x7fff
  const I32_MIN := -0x8000_0000
  const I32_MAX := 0x7fff_ffff
  const I64_MIN := -0x8000_0000_0000_0000
  const I64_MAX := 0x7fff_ffff_ffff_ffff

  /** One more than the largest unsigned 32-bit number. */
  const U32 := 0x1_0000_0000
  const U64_MAX := 0xffff_ffff_ffff_ffff

  predicate IsI16(n: int) {
    I16_MIN <= n <= I16_MAX
  }

  predicate IsDigit(c: char) {
    '0' <= c <= '9'
  }
}
