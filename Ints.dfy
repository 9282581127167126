// Fixed-width integer storage shared by the models.
module Ints {
  /** A `uint16_t`. */
  newtype u16 = x: int | 0 <= x < 0x1_0000

  /** What storing an int into a `uint16_t` keeps: its low 16 bits. */
  function Truncate16(v: int): (r: u16)
    ensures 0 <= v < 0x1_0000 ==> r as int == v
    ensures r as int % 0x1_0000 == v % 0x1_0000
  {
    (v % 0x1_0000) as u16
  }

  /** 2 to the power `b`: the value of `1 << b` before any wrap-around. */
  function Pow2(b: nat): (p: nat)
    ensures p >= 1
  {
    if b == 0 then 1 else 2 * Pow2(b - 1)
  }
}
