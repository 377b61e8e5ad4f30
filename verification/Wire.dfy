/** Bytes and the fixed-width big-endian integers the packets are made of. */
module Wire {
  newtype byte = x: int | 0 <= x < 0x100
  type u8 = x: int | 0 <= x < 0x100
  type u16 = x: int | 0 <= x < 0x1_0000
  type u32 = x: int | 0 <= x < 0x1_0000_0000

  /** A hardware address. */
  type Mac = m: seq<byte> | |m| == 6 witness [0, 0, 0, 0, 0, 0]

  const NO_MAC: Mac := [0, 0, 0, 0, 0, 0]

  datatype Option<+T> = None | Some(value: T)

  /** Incrementing a 16-bit counter. */
  function Inc16(v: u16): u16 {
    if v == 0xFFFF then 0 else v + 1
  }

  /** The two bytes of `v` in network order. */
  function Be16(v: u16): (s: seq<byte>)
    ensures |s| == 2
  {
    [(v / 0x100) as byte, (v % 0x100) as byte]
  }

  /** The four bytes of `v` in network order. */
  function Be32(v: u32): (s: seq<byte>)
    ensures |s| == 4
  {
    [(v / 0x100_0000) as byte, (v / 0x1_0000 % 0x100) as byte, (v / 0x100 % 0x100) as byte, (v % 0x100) as byte]
  }

  function ReadBe16(s: seq<byte>): u16
    requires |s| >= 2
  {
    s[0] as int * 0x100 + s[1] as int
  }

  function ReadBe32(s: seq<byte>): u32
    requires |s| >= 4
  {
    s[0] as int * 0x100_0000 + s[1] as int * 0x1_0000 + s[2] as int * 0x100 + s[3] as int
  }

  lemma Be16RoundTrip(v: u16, rest: seq<byte>)
    ensures ReadBe16(Be16(v) + rest) == v
  {
  }

  lemma Be32RoundTrip(v: u32, rest: seq<byte>)
    ensures ReadBe32(Be32(v) + rest) == v
  {
    assert v / 0x100 == v / 0x1_0000 * 0x100 + v / 0x100 % 0x100;
    assert v / 0x1_0000 == v / 0x100_0000 * 0x100 + v / 0x1_0000 % 0x100;
  }

  /** Taking one digit off a number. */
  lemma LastDigit(high: int, low: int)
    requires 0 <= low < 0x100
    ensures (high * 0x100 + low) / 0x100 == high && (high * 0x100 + low) % 0x100 == low
  {
  }

  lemma DividedTwice(v: nat)
    ensures v / 0x1_0000 == v / 0x100 / 0x100 && v / 0x100_0000 == v / 0x100 / 0x100 / 0x100
  {
  }

  lemma ReadBe32Injective(s: seq<byte>)
    requires |s| >= 4
    ensures Be32(ReadBe32(s)) == s[..4]
  {
    var a: int, b: int, c: int, d: int := s[0] as int, s[1] as int, s[2] as int, s[3] as int;
    var ab, abc, v: nat := a * 0x100 + b, (a * 0x100 + b) * 0x100 + c, ReadBe32(s);
    LastDigit(a, b);
    LastDigit(ab, c);
    LastDigit(abc, d);
    assert v == abc * 0x100 + d;
    DividedTwice(v);
  }

  /** Of two byte strings of one length, the one that has the smaller byte where they first differ. */
  ghost predicate Before(s: seq<byte>, t: seq<byte>)
    requires |s| == |t|
  {
    exists k :: 0 <= k < |s| && s[k] < t[k] && s[..k] == t[..k]
  }

  /** Network order puts the most significant byte first: numbers compare as their bytes do, from the left. */
  lemma NetworkOrder(v: u32, w: u32)
    requires v < w
    ensures Before(Be32(v), Be32(w))
    ensures v < w < 0x1_0000 ==> Before(Be16(v), Be16(w))
  {
    var s, t := Be32(v), Be32(w);
    Be32RoundTrip(v, []);
    Be32RoundTrip(w, []);
    assert s + [] == s && t + [] == t;
    var k := if s[0] != t[0] then 0 else if s[1] != t[1] then 1 else if s[2] != t[2] then 2 else 3;
    assert s[..k] == t[..k] && s[k] < t[k];
    if w < 0x1_0000 {
      var a, b := Be16(v), Be16(w);
      var j := if a[0] != b[0] then 0 else 1;
      assert a[..j] == b[..j] && a[j] < b[j];
    }
  }

  /** A packet under construction or being taken apart: a byte vector that grows and shrinks. */
  class Packet {
    var bytes: seq<byte>

    constructor (b: seq<byte>)
      ensures bytes == b
    {
      bytes := b;
    }
  }
}
