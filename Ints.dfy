/** The C integer conversions the display code relies on: storing a value
    into a uint8_t, a uint16_t or an int16_t keeps it modulo 2^8 or 2^16 (two's
    complement). */
module Ints {

  /** uint8_t conversion of an integer. */
  function Byte(v: int): (b: int)
    ensures 0 <= b < 256
    ensures 0 <= v < 256 ==> b == v
    ensures (b - v) % 256 == 0
  {
    v % 256
  }

  /** uint16_t conversion of an integer. */
  function Word(v: int): (w: int)
    ensures 0 <= w < 65536
    ensures 0 <= v < 65536 ==> w == v
    ensures (w - v) % 65536 == 0
  {
    v % 65536
  }

  /** int16_t conversion of an integer. */
  function Int16(v: int): (s: int)
    ensures -32768 <= s < 32768
    ensures -32768 <= v < 32768 ==> s == v
    ensures (s - v) % 65536 == 0
  {
    (v + 32768) % 65536 - 32768
  }
}
