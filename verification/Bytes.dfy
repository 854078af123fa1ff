/** Bytes, unsigned words and the little-endian fields every packet and file format here is made of. */
module Bytes {
  type Byte = x: int | 0 <= x < 0x100
  type U16 = x: int | 0 <= x < 0x1_0000
  type U32 = x: int | 0 <= x < U32_SIZE

  const U32_SIZE := 0x1_0000_0000

  function Le16(x: U16): (s: seq<Byte>)
    ensures |s| == 2 && FromLe16(s) == x
  {
    [x % 0x100, x / 0x100]
  }

  function FromLe16(s: seq<Byte>): U16
    requires |s| == 2
  {
    (s[0] as int) + (s[1] as int) * 0x100
  }

  function Le32(x: U32): (s: seq<Byte>)
    ensures |s| == 4 && FromLe32(s) == x
  {
    assert x / 0x100 % 0x100 == x / 0x100 - x / 0x1_0000 * 0x100;
    assert x / 0x1_0000 % 0x100 == x / 0x1_0000 - x / 0x100_0000 * 0x100;
    [x % 0x100, x / 0x100 % 0x100, x / 0x1_0000 % 0x100, x / 0x100_0000]
  }

  function FromLe32(s: seq<Byte>): U32
    requires |s| == 4
  {
    (s[0] as int) + (s[1] as int) * 0x100 + (s[2] as int) * 0x1_0000 + (s[3] as int) * 0x100_0000
  }
}
