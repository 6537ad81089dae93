/** Fixed-width unsigned integers of the C client and their big-endian byte layouts. */
module Bytes {
  type byte = x: int | 0 <= x < 0x100
  type u16 = x: int | 0 <= x < 0x1_0000
  type u32 = x: int | 0 <= x < 0x1_0000_0000

  /** `v >> 8, v & 0xff`: high byte first. */
  function Be16(v: u16): seq<byte> {
    [v / 0x100, v % 0x100]
  }

  /** `s[at] << 8 | s[at + 1]` */
  function ReadBe16(s: seq<byte>, at: nat): u16
    requires at + 2 <= |s|
  {
    s[at] as int * 0x100 + s[at + 1]
  }

  /** The four bytes of a 32-bit value, most significant first. */
  function Be32(v: u32): seq<byte> {
    [v / 0x100_0000, (v / 0x1_0000) % 0x100, (v / 0x100) % 0x100, v % 0x100]
  }

  /** `s[at] << 24 | s[at + 1] << 16 | s[at + 2] << 8 | s[at + 3]` */
  function ReadBe32(s: seq<byte>, at: nat): u32
    requires at + 4 <= |s|
  {
    ((s[at] as int * 0x100 + s[at + 1]) * 0x100 + s[at + 2]) * 0x100 + s[at + 3]
  }

  /** Reading back the two bytes written for `v` gives `v`, and any two bytes are the layout of what they read as. */
  lemma Be16RoundTrip(v: u16, s: seq<byte>, at: nat)
    requires at + 2 <= |s|
    ensures s[at..at + 2] == Be16(v) <==> ReadBe16(s, at) == v
  {
    if ReadBe16(s, at) == v {
      assert s[at..at + 2] == [s[at], s[at + 1]];
    }
  }

  /** Reading back the four bytes written for `v` gives `v`, and any four bytes are the layout of what they read as. */
  lemma Be32RoundTrip(v: u32, s: seq<byte>, at: nat)
    requires at + 4 <= |s|
    ensures s[at..at + 4] == Be32(v) <==> ReadBe32(s, at) == v
  {
    var b := s[at..at + 4];
    assert b == [s[at], s[at + 1], s[at + 2], s[at + 3]];
    if ReadBe32(s, at) == v {
      assert v % 0x100 == s[at + 3];
      assert v / 0x100 == (s[at] as int * 0x100 + s[at + 1]) * 0x100 + s[at + 2];
      assert (v / 0x100) % 0x100 == s[at + 2];
      assert v / 0x1_0000 == s[at] as int * 0x100 + s[at + 1];
      assert v / 0x100_0000 == s[at];
    }
  }
}
