/** Standard base64 with required padding and zero trailing bits (section 4 of RFC 4648). */
module Base64 {
  import opened Wrappers
  import opened Bounds

  function Symbol(v: int): char
    requires 0 <= v < 64
  {
    if v < 26 then 'A' + v as char
    else if v < 52 then 'a' + (v - 26) as char
    else if v < 62 then '0' + (v - 52) as char
    else if v == 62 then '+' else '/'
  }

  function Sextet(c: char): (r: Option<int>)
    ensures r.Some? ==> 0 <= r.value < 64
  {
    if 'A' <= c <= 'Z' then Some(c as int - 'A' as int)
    else if 'a' <= c <= 'z' then Some(c as int - 'a' as int + 26)
    else if '0' <= c <= '9' then Some(c as int - '0' as int + 52)
    else if c == '+' then Some(62)
    else if c == '/' then Some(63)
    else None
  }

  function Encode(b: seq<Byte>): string {
    if |b| == 0 then []
    else if |b| == 1 then [Symbol(b[0] / 4), Symbol(b[0] % 4 * 16), '=', '=']
    else if |b| == 2 then [Symbol(b[0] / 4), Symbol(b[0] % 4 * 16 + b[1] / 16), Symbol(b[1] % 16 * 4), '=']
    else [Symbol(b[0] / 4), Symbol(b[0] % 4 * 16 + b[1] / 16), Symbol(b[1] % 16 * 4 + b[2] / 64), Symbol(b[2] % 64)]
         + Encode(b[3..])
  }

  /** The bytes of one group of four symbols, the last of them possibly padded. */
  function Group(s: string): Option<seq<Byte>>
    requires |s| == 4
  {
    match (Sextet(s[0]), Sextet(s[1]), Sextet(s[2]), Sextet(s[3]))
    case (Some(a), Some(b), Some(c), Some(d)) => Some([a * 4 + b / 16, b % 16 * 16 + c / 4, c % 4 * 64 + d])
    case (Some(a), Some(b), Some(c), None) =>
      if s[3] == '=' && c % 4 == 0 then Some([a * 4 + b / 16, b % 16 * 16 + c / 4]) else None
    case (Some(a), Some(b), None, None) =>
      if s[2] == '=' && s[3] == '=' && b % 16 == 0 then Some([a * 4 + b / 16]) else None
    case _ => None
  }

  function Decode(s: string): Option<seq<Byte>> {
    if s == [] then Some([])
    else if |s| < 4 then None
    else
      match Group(s[..4])
      case None => None
      case Some(g) =>
        if |g| < 3 then (if |s| == 4 then Some(g) else None)
        else
          match Decode(s[4..])
          case None => None
          case Some(rest) => Some(g + rest)
  }

  lemma SymbolReads(v: int)
    requires 0 <= v < 64
    ensures Sextet(Symbol(v)) == Some(v)
  {
  }

  lemma SextetPrints(c: char)
    requires Sextet(c).Some?
    ensures Symbol(Sextet(c).value) == c
  {
  }

  lemma OneReads(x: Byte)
    ensures |Encode([x])| == 4 && Group(Encode([x])) == Some([x])
  {
    SymbolReads(x / 4);
    SymbolReads(x % 4 * 16);
    assert x / 4 * 4 + x % 4 * 16 / 16 == x;
  }

  lemma TwoRead(x: Byte, y: Byte)
    ensures |Encode([x, y])| == 4 && Group(Encode([x, y])) == Some([x, y])
  {
    SymbolReads(x / 4);
    SymbolReads(x % 4 * 16 + y / 16);
    SymbolReads(y % 16 * 4);
    var b, c := x % 4 * 16 + y / 16, y % 16 * 4;
    assert x / 4 * 4 + b / 16 == x && b % 16 * 16 + c / 4 == y;
  }

  lemma ThreeSplit(x: Byte, y: Byte, z: Byte)
    ensures var a, b, c, d := x / 4, x % 4 * 16 + y / 16, y % 16 * 4 + z / 64, z % 64;
            && 0 <= a < 64 && 0 <= b < 64 && 0 <= c < 64 && 0 <= d < 64
            && a * 4 + b / 16 == x && b % 16 * 16 + c / 4 == y && c % 4 * 64 + d == z
  {
  }

  lemma FullGroup(s: string, a: int, b: int, c: int, d: int)
    requires |s| == 4 && Sextet(s[0]) == Some(a) && Sextet(s[1]) == Some(b) && Sextet(s[2]) == Some(c) && Sextet(s[3]) == Some(d)
    ensures Group(s) == Some([a * 4 + b / 16, b % 16 * 16 + c / 4, c % 4 * 64 + d])
  {
  }

  lemma ThreeRead(x: Byte, y: Byte, z: Byte)
    ensures |Encode([x, y, z])| == 4 && Group(Encode([x, y, z])) == Some([x, y, z])
  {
    ThreeSplit(x, y, z);
    var a, b, c, d := x / 4, x % 4 * 16 + y / 16, y % 16 * 4 + z / 64, z % 64;
    var s := [Symbol(a), Symbol(b), Symbol(c), Symbol(d)];
    assert Encode([x, y, z]) == s by {
      assert Encode([x, y, z][3..]) == [];
    }
    SymbolReads(a);
    SymbolReads(b);
    SymbolReads(c);
    SymbolReads(d);
    FullGroup(s, a, b, c, d);
  }

  lemma GroupReads(b: seq<Byte>)
    requires 1 <= |b| <= 3
    ensures |Encode(b)| == 4 && Group(Encode(b)) == Some(b)
  {
    if |b| == 1 {
      assert b == [b[0]];
      OneReads(b[0]);
    } else if |b| == 2 {
      assert b == [b[0], b[1]];
      TwoRead(b[0], b[1]);
    } else {
      assert b == [b[0], b[1], b[2]];
      ThreeRead(b[0], b[1], b[2]);
    }
  }

  lemma {:induction false} DecodeEncode(b: seq<Byte>)
    ensures Decode(Encode(b)) == Some(b)
  {
    if b != [] {
      var k := if |b| < 3 then |b| else 3;
      var g, rest := b[..k], b[k..];
      GroupReads(g);
      assert b == g + rest;
      if |b| >= 3 {
        assert Encode(b) == Encode(g) + Encode(rest) by {
          assert g[3..] == [] && Encode(g[3..]) == [];
        }
        assert Encode(b)[..4] == Encode(g) && Encode(b)[4..] == Encode(rest);
        DecodeEncode(rest);
      } else {
        assert g == b && Encode(b)[..4] == Encode(b);
      }
    }
  }

  lemma OneByte(a: int, b: int)
    requires 0 <= a < 64 && 0 <= b < 64 && b % 16 == 0
    ensures var x := a * 4 + b / 16; 0 <= x < 256 && x / 4 == a && x % 4 * 16 == b
  {
  }

  lemma TwoBytes(a: int, b: int, c: int)
    requires 0 <= a < 64 && 0 <= b < 64 && 0 <= c < 64 && c % 4 == 0
    ensures var x, y := a * 4 + b / 16, b % 16 * 16 + c / 4;
            0 <= x < 256 && 0 <= y < 256 && x / 4 == a && x % 4 * 16 + y / 16 == b && y % 16 * 4 == c
  {
  }

  lemma ThreeBytes(a: int, b: int, c: int, d: int)
    requires 0 <= a < 64 && 0 <= b < 64 && 0 <= c < 64 && 0 <= d < 64
    ensures var x, y, z := a * 4 + b / 16, b % 16 * 16 + c / 4, c % 4 * 64 + d;
            && 0 <= x < 256 && 0 <= y < 256 && 0 <= z < 256 && x / 4 == a && x % 4 * 16 + y / 16 == b
            && y % 16 * 4 + z / 64 == c && z % 64 == d
  {
  }

  lemma GroupPrints(s: string)
    requires |s| == 4 && Group(s).Some?
    ensures 1 <= |Group(s).value| <= 3 && Encode(Group(s).value) == s
  {
    SextetPrints(s[0]);
    SextetPrints(s[1]);
    var a, b := Sextet(s[0]).value, Sextet(s[1]).value;
    if Sextet(s[2]).None? {
      OneByte(a, b);
      assert s == [s[0], s[1], '=', '='];
    } else {
      SextetPrints(s[2]);
      var c := Sextet(s[2]).value;
      if Sextet(s[3]).None? {
        TwoBytes(a, b, c);
        assert s == [s[0], s[1], s[2], '='];
      } else {
        SextetPrints(s[3]);
        ThreeBytes(a, b, c, Sextet(s[3]).value);
        assert Encode(Group(s).value[3..]) == [];
        assert s == [s[0], s[1], s[2], s[3]] + [];
      }
    }
  }

  lemma EncodeAppends(g: seq<Byte>, rest: seq<Byte>)
    requires |g| == 3
    ensures Encode(g + rest) == Encode(g) + Encode(rest)
  {
    assert (g + rest)[3..] == rest;
    assert g[3..] == [] && Encode(g[3..]) == [];
  }

  /** Every accepted text is the encoding of what it decodes to: one spelling per value. */
  lemma {:induction false} EncodeDecode(s: string)
    requires Decode(s).Some?
    ensures Encode(Decode(s).value) == s
  {
    if s != [] {
      var g := Group(s[..4]).value;
      GroupPrints(s[..4]);
      assert s == s[..4] + s[4..];
      if |g| == 3 {
        EncodeDecode(s[4..]);
        EncodeAppends(g, Decode(s[4..]).value);
      } else {
        assert s == s[..4];
      }
    }
  }

  const UPPER := "ABCDEFGHIJKLMNOPQRSTUVWXYZ"
  const LOWER := "abcdefghijklmnopqrstuvwxyz"
  const DECIMAL := "0123456789"
  const ALPHABET := UPPER + LOWER + DECIMAL + "+/"

  lemma UpperAt(v: nat)
    requires v < 26
    ensures UPPER[v] == Symbol(v)
  {
    assert v == 0 || v == 1 || v == 2 || v == 3 || v == 4 || v == 5 || v == 6 || v == 7 || v == 8 || v == 9 ||
        v == 10 || v == 11 || v == 12 || v == 13 || v == 14 || v == 15 || v == 16 || v == 17 || v == 18 || v == 19 ||
        v == 20 || v == 21 || v == 22 || v == 23 || v == 24 || v == 25;
  }

  lemma LowerAt(v: nat)
    requires v < 26
    ensures LOWER[v] == Symbol(26 + v)
  {
    assert v == 0 || v == 1 || v == 2 || v == 3 || v == 4 || v == 5 || v == 6 || v == 7 || v == 8 || v == 9 ||
        v == 10 || v == 11 || v == 12 || v == 13 || v == 14 || v == 15 || v == 16 || v == 17 || v == 18 || v == 19 ||
        v == 20 || v == 21 || v == 22 || v == 23 || v == 24 || v == 25;
  }

  lemma DecimalAt(v: nat)
    requires v < 10
    ensures DECIMAL[v] == Symbol(52 + v)
  {
    assert v == 0 || v == 1 || v == 2 || v == 3 || v == 4 || v == 5 || v == 6 || v == 7 || v == 8 || v == 9;
  }

  /** The 64 symbols by position. */
  lemma SymbolsAre(v: nat)
    requires v < 64
    ensures Symbol(v) == ALPHABET[v]
  {
    assert |UPPER| == 26 && |LOWER| == 26 && |DECIMAL| == 10;
    if v < 26 {
      UpperAt(v);
    } else if v < 52 {
      LowerAt(v - 26);
    } else if v < 62 {
      DecimalAt(v - 52);
    }
  }

  predicate Spelled(c: char, v: int) {
    0 <= v < 64 && c == ALPHABET[v]
  }

  /** A group of bytes as one number of 24 bits. */
  function Bits(a: int, b: int, c: int): int {
    0x1_0000 * a + 0x100 * b + c
  }

  /** Four values of six bits as one number, most significant first. */
  function Sextets(w: int, x: int, y: int, z: int): int {
    0x4_0000 * w + 0x1000 * x + 0x40 * y + z
  }

  lemma GroupSplit(a: Byte, b: Byte, c: Byte)
    ensures var w, x, y, z := a / 4, a % 4 * 16 + b / 16, b % 16 * 4 + c / 64, c % 64;
            0 <= w < 64 && 0 <= x < 64 && 0 <= y < 64 && 0 <= z < 64 && Sextets(w, x, y, z) == Bits(a, b, c)
  {
  }

  lemma FirstGroup(b: seq<Byte>)
    requires |b| >= 3
    ensures var s := Encode(b);
            && |s| >= 4 && s[4..] == Encode(b[3..]) && s[0] == Symbol(b[0] / 4) && s[1] == Symbol(b[0] % 4 * 16 + b[1] / 16)
            && s[2] == Symbol(b[1] % 16 * 4 + b[2] / 64) && s[3] == Symbol(b[2] % 64)
  {
  }

  /**
   The encoding by its bits: three bytes are a 24-bit number written in four symbols of six bits each, most significant
   first; a last group of one or two bytes is filled up with zero bits and padded.
   */
  lemma EncodeBits(b: seq<Byte>) returns (w: int, x: int, y: int, z: int)
    requires b != []
    ensures |Encode(b)| >= 4 && Spelled(Encode(b)[0], w) && Spelled(Encode(b)[1], x)
    ensures |b| == 1 ==> Encode(b)[2..] == "==" && Sextets(w, x, 0, 0) == Bits(b[0], 0, 0)
    ensures |b| == 2 ==> Spelled(Encode(b)[2], y) && Encode(b)[3..] == "=" && Sextets(w, x, y, 0) == Bits(b[0], b[1], 0)
    ensures |b| >= 3 ==>
              && Spelled(Encode(b)[2], y) && Spelled(Encode(b)[3], z) && Encode(b)[4..] == Encode(b[3..])
              && Sextets(w, x, y, z) == Bits(b[0], b[1], b[2])
  {
    var n, m := if |b| == 1 then 0 else b[1], if |b| < 3 then 0 else b[2];
    GroupSplit(b[0], n, m);
    w, x, y, z := b[0] / 4, b[0] % 4 * 16 + n / 16, n % 16 * 4 + m / 64, m % 64;
    SymbolsAre(w);
    SymbolsAre(x);
    SymbolsAre(y);
    SymbolsAre(z);
    if |b| >= 3 {
      FirstGroup(b);
    }
  }
}
