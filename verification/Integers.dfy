/** Machine integers whose range the verifier checks at every operation. */
module Integers {
  const MAX32 := 0xFFFF_FFFF
  const MAX_INT := 0x7FFF_FFFF_FFFF_FFFF
  const MAX64 := 0xFFFF_FFFF_FFFF_FFFF
  const TWO64 := 0x1_0000_0000_0000_0000

  newtype uint32 = n: int | 0 <= n <= MAX32

  newtype uint64 = n: int | 0 <= n <= MAX64
}
