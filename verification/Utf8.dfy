/** UTF-8 encoding of strings (section 3 of RFC 3629). */
module Utf8 {
  import opened Bounds

  function EncodeChar(c: char): (b: seq<Byte>)
    ensures |b| == CharBytes(c)
  {
    var v := c as int;
    if v < 0x80 then [v]
    else if v < 0x800 then [0xC0 + v / 0x40, 0x80 + v % 0x40]
    else if v < 0x1_0000 then [0xE0 + v / 0x1000, 0x80 + v / 0x40 % 0x40, 0x80 + v % 0x40]
    else [0xF0 + v / 0x4_0000, 0x80 + v / 0x1000 % 0x40, 0x80 + v / 0x40 % 0x40, 0x80 + v % 0x40]
  }

  function Encode(s: string): (b: seq<Byte>)
    ensures |b| == Utf8Len(s)
  {
    if s == [] then [] else EncodeChar(s[0]) + Encode(s[1..])
  }

  /** The first byte alone tells how many bytes a character takes. */
  function WidthOf(first: int): nat {
    if first < 0x80 then 1 else if first < 0xE0 then 2 else if first < 0xF0 then 3 else 4
  }

  function ValueOf(b: seq<int>): int
    requires b != [] && |b| == WidthOf(b[0])
  {
    if |b| == 1 then b[0]
    else if |b| == 2 then (b[0] - 0xC0) * 0x40 + (b[1] - 0x80)
    else if |b| == 3 then (b[0] - 0xE0) * 0x1000 + (b[1] - 0x80) * 0x40 + (b[2] - 0x80)
    else (b[0] - 0xF0) * 0x4_0000 + (b[1] - 0x80) * 0x1000 + (b[2] - 0x80) * 0x40 + (b[3] - 0x80)
  }

  lemma CharDecodes(c: char)
    ensures WidthOf(EncodeChar(c)[0]) == CharBytes(c) && ValueOf(EncodeChar(c)) == c as int
  {
    var v := c as int;
    assert v < 0x11_0000;
    assert v == v / 0x40 * 0x40 + v % 0x40;
    assert v / 0x40 == v / 0x40 / 0x40 * 0x40 + v / 0x40 % 0x40;
    assert v / 0x1000 == v / 0x40 / 0x40;
    assert v / 0x1000 == v / 0x1000 / 0x40 * 0x40 + v / 0x1000 % 0x40;
    assert v / 0x4_0000 == v / 0x1000 / 0x40;
  }

  /** The six bits a continuation byte carries. */
  predicate Continues(b: Byte, bits: int) {
    0 <= bits < 0x40 && b == 0x80 + bits
  }

  /** The shortest form of a character: its lead byte and continuation bytes, and the bits of the character each carries. */
  lemma CharForm(c: char) returns (x: int, y: int, z: int)
    ensures var b, v := EncodeChar(c), c as int;
            || (|b| == 1 && v < 0x80 && b[0] == v)
            || (|b| == 2 && 0x80 <= v < 0x800 && 0xC0 <= b[0] < 0xE0 && Continues(b[1], z) && v + 0xC0 * 0x40 == b[0] as int * 0x40 + z)
            || (&& |b| == 3 && 0x800 <= v < 0x1_0000 && 0xE0 <= b[0] < 0xF0 && Continues(b[1], y) && Continues(b[2], z)
                && v + 0xE0 * 0x1000 == b[0] as int * 0x1000 + y * 0x40 + z)
            || (&& |b| == 4 && 0x1_0000 <= v && 0xF0 <= b[0] < 0xF8 && Continues(b[1], x) && Continues(b[2], y) && Continues(b[3], z)
                && v + 0xF0 * 0x4_0000 == b[0] as int * 0x4_0000 + x * 0x1000 + y * 0x40 + z)
  {
    var v := c as int;
    x, y, z := v / 0x1000 % 0x40, v / 0x40 % 0x40, v % 0x40;
    CharDecodes(c);
  }

  /** Different strings have different encodings. */
  lemma {:induction false} EncodeInjective(a: string, b: string)
    requires Encode(a) == Encode(b)
    ensures a == b
  {
    if a != [] && b != [] {
      CharDecodes(a[0]);
      CharDecodes(b[0]);
      assert EncodeChar(a[0])[0] == Encode(a)[0] && EncodeChar(b[0])[0] == Encode(b)[0];
      assert EncodeChar(a[0]) == Encode(a)[..CharBytes(a[0])];
      assert EncodeChar(b[0]) == Encode(b)[..CharBytes(b[0])];
      assert Encode(a[1..]) == Encode(a)[CharBytes(a[0])..];
      assert Encode(b[1..]) == Encode(b)[CharBytes(b[0])..];
      EncodeInjective(a[1..], b[1..]);
      assert a == [a[0]] + a[1..] && b == [b[0]] + b[1..];
    }
  }
}
