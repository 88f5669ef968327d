/** The widths of the C integers that the modelled state machines store.  A value of one of these
    types is the exact mathematical value of the C variable; wrap-around is written out where it
    can happen. */
module MachineIntegers {
  const U8_MAX: nat := 0xFF
  const U16_MAX: nat := 0xFFFF
  const U32_MAX: nat := 0xFFFF_FFFF
  const U64_MAX: nat := 0xFFFF_FFFF_FFFF_FFFF
  const TWO_32: nat := 0x1_0000_0000
  const TWO_64: nat := 0x1_0000_0000_0000_0000
  const I16_MIN: int := -0x8000
  const I16_MAX: int := 0x7FFF
  const I32_MIN: int := -0x8000_0000
  const I32_MAX: int := 0x7FFF_FFFF

  type U8 = n: nat | n <= U8_MAX
  type U16 = n: nat | n <= U16_MAX
  type U32 = n: nat | n <= U32_MAX
  type U64 = n: nat | n <= U64_MAX
  type I16 = n: int | I16_MIN <= n <= I16_MAX
}
