/**
 * Unsigned 8- and 32-bit counters of the C sources, kept as integers with the
 * wrap-around of `++` written out.
 */
module Words {

  type uint8 = x: int | 0 <= x < 0x100

  type uint32 = x: int | 0 <= x < 0x1_0000_0000

  /** `x++` on a uint32: one more, modulo 2^32. */
  function Inc32(x: uint32): (r: uint32)
    ensures r == (x + 1) % 0x1_0000_0000
    ensures r != x
  {
    if x == 0xFFFF_FFFF then 0 else x + 1
  }
}
