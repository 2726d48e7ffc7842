/** The generated key column that stands in for a three-column unique index. */
module IdentityKey {
  import opened Bounds
  import opened EventColumns
  import opened Utf8
  import opened Decimals

  const MAX_TENANT_BYTES := 255
  const MAX_EVENT_ID_BYTES := 1_024
  const MAX_IDENTITY_BYTES := 2_048
  const KEY_COLUMN_BYTES := 2_310

  /** The limits that constructors and CHECK clauses put on an identity. */
  predicate ValidIdentity(id: Identity) {
    && 0 < Utf8Len(id.tenant) <= MAX_TENANT_BYTES
    && 0 < Utf8Len(id.eventId) <= MAX_EVENT_ID_BYTES
    && Utf8Len(id.source) + Utf8Len(id.eventId) <= MAX_IDENTITY_BYTES
  }

  function Zeros(n: nat): (s: string)
    ensures |s| == n && forall i :: 0 <= i < n ==> IsDigit(s[i])
  {
    seq(n, _ => '0')
  }

  /** LPAD(n, width, '0'): a number too long for the width keeps only its leading digits. */
  function LPad(n: nat, width: nat): (s: string)
    ensures |s| == width && forall i :: 0 <= i < width ==> IsDigit(s[i])
  {
    var d := Digits(n);
    if |d| >= width then d[..width] else Zeros(width - |d|) + d
  }

  function DigitByte(c: char): Byte {
    if IsDigit(c) then c as int else 0
  }

  /** The bytes of a run of digits. */
  function DigitBytes(s: string): (b: seq<Byte>)
    requires forall i :: 0 <= i < |s| ==> IsDigit(s[i])
    ensures |b| == |s|
  {
    seq(|s|, i requires 0 <= i < |s| => DigitByte(s[i]))
  }

  function LengthField(n: nat, width: nat): (b: seq<Byte>)
    ensures |b| == width
  {
    DigitBytes(LPad(n, width))
  }

  function Key(tenant: seq<Byte>, source: seq<Byte>, eventId: seq<Byte>): seq<Byte> {
    LengthField(|tenant|, 3) + tenant + LengthField(|source|, 4) + source + eventId
  }

  function KeyOf(id: Identity): seq<Byte> {
    Key(Encode(id.tenant), Encode(id.source), Encode(id.eventId))
  }

  lemma {:induction false} DigitsWidth(n: nat, k: nat)
    requires n < Pow10(k) && k > 0
    ensures |Digits(n)| <= k
  {
    if n >= 10 {
      DigitsWidth(n / 10, k - 1);
    }
  }

  lemma {:induction false} ZerosRead(k: nat, s: string)
    requires forall i :: 0 <= i < |s| ==> IsDigit(s[i])
    ensures Value(Zeros(k) + s) == Value(s)
  {
    if s == [] {
      if k > 0 {
        ZerosRead(k - 1, []);
        assert Zeros(k) + s == Zeros(k);
        assert Zeros(k)[..k - 1] == Zeros(k - 1) == Zeros(k - 1) + [];
      }
    } else {
      var t := Zeros(k) + s;
      assert t[..|t| - 1] == Zeros(k) + s[..|s| - 1];
      ZerosRead(k, s[..|s| - 1]);
    }
  }

  /** A padded length reads back as long as it fits its field. */
  lemma PaddedReads(n: nat, width: nat)
    requires width > 0 && n < Pow10(width)
    ensures Value(LPad(n, width)) == n
  {
    DigitsRead(n);
    DigitsWidth(n, width);
    var d := Digits(n);
    ZerosRead(width - |d|, d);
    if |d| == width {
      assert d[..width] == d;
    }
  }

  lemma SameDigits(a: string, b: string)
    requires (forall i :: 0 <= i < |a| ==> IsDigit(a[i])) && (forall i :: 0 <= i < |b| ==> IsDigit(b[i])) && DigitBytes(a) == DigitBytes(b)
    ensures a == b
  {
    forall i | 0 <= i < |a| ensures a[i] == b[i] {
      assert DigitBytes(a)[i] == DigitBytes(b)[i];
    }
  }

  /** Padded lengths tell the lengths apart. */
  lemma SameLength(m: nat, n: nat, width: nat)
    requires width > 0 && m < Pow10(width) && n < Pow10(width) && LengthField(m, width) == LengthField(n, width)
    ensures m == n
  {
    SameDigits(LPad(m, width), LPad(n, width));
    PaddedReads(m, width);
    PaddedReads(n, width);
  }

  lemma SplitAt(a: seq<Byte>, b: seq<Byte>, c: seq<Byte>, d: seq<Byte>)
    requires |a| == |c| && a + b == c + d
    ensures a == c && b == d
  {
    assert a == (a + b)[..|a|] && c == (c + d)[..|c|];
    assert b == (a + b)[|a|..] && d == (c + d)[|c|..];
  }

  lemma KeyFields(t: seq<Byte>, s: seq<Byte>, e: seq<Byte>)
    ensures Key(t, s, e) == LengthField(|t|, 3) + (t + (LengthField(|s|, 4) + (s + e)))
  {
  }

  /** The key tells any two triples of byte strings apart as long as the two lengths fit their fields. */
  lemma KeyInjective(t: seq<Byte>, s: seq<Byte>, e: seq<Byte>, t': seq<Byte>, s': seq<Byte>, e': seq<Byte>)
    requires |t| < 1_000 && |t'| < 1_000 && |s| < 10_000 && |s'| < 10_000
    ensures Key(t, s, e) == Key(t', s', e') <==> t == t' && s == s' && e == e'
  {
    if Key(t, s, e) == Key(t', s', e') {
      KeyFields(t, s, e);
      KeyFields(t', s', e');
      var u, u' := LengthField(|s|, 4) + (s + e), LengthField(|s'|, 4) + (s' + e');
      SplitAt(LengthField(|t|, 3), t + u, LengthField(|t'|, 3), t' + u');
      Powers();
      SameLength(|t|, |t'|, 3);
      SplitAt(t, u, t', u');
      SplitAt(LengthField(|s|, 4), s + e, LengthField(|s'|, 4), s' + e');
      SameLength(|s|, |s'|, 4);
      SplitAt(s, e, s', e');
    }
  }

  /** Two valid identities share a key exactly when they are the same identity, and every key fits its column. */
  lemma KeyStandsForIdentity(a: Identity, b: Identity)
    requires ValidIdentity(a) && ValidIdentity(b)
    ensures KeyOf(a) == KeyOf(b) <==> a == b
    ensures |KeyOf(a)| <= KEY_COLUMN_BYTES
  {
    KeyInjective(Encode(a.tenant), Encode(a.source), Encode(a.eventId), Encode(b.tenant), Encode(b.source), Encode(b.eventId));
    if KeyOf(a) == KeyOf(b) {
      EncodeInjective(a.tenant, b.tenant);
      EncodeInjective(a.source, b.source);
      EncodeInjective(a.eventId, b.eventId);
    }
  }

  /** A padded number one digit at a time. */
  lemma LPadStep(n: nat, width: nat)
    requires width > 1 && n < Pow10(width)
    ensures LPad(n, width) == LPad(n / 10, width - 1) + [DigitChar(n % 10)]
  {
    DigitsWidth(n, width);
    if n >= 10 {
      DigitsWidth(n / 10, width - 1);
      assert Digits(n) == Digits(n / 10) + [DigitChar(n % 10)];
    } else {
      assert Zeros(width - 1) == LPad(0, width - 1);
    }
  }

  lemma TwoDigits(n: nat)
    requires n < 100
    ensures LPad(n, 2) == [DigitChar(n / 10), DigitChar(n % 10)]
  {
    Powers();
    LPadStep(n, 2);
  }

  lemma ThreeDigits(n: nat)
    requires n < 1_000
    ensures LPad(n, 3) == [DigitChar(n / 100), DigitChar(n / 10 % 10), DigitChar(n % 10)]
    ensures LengthField(n, 3) == [48 + n / 100, 48 + n / 10 % 10, 48 + n % 10]
  {
    Powers();
    TwoDigits(n / 10);
    LPadStep(n, 3);
  }

  lemma FourDigits(n: nat)
    requires n < 10_000
    ensures LengthField(n, 4) == [48 + n / 1_000, 48 + n / 100 % 10, 48 + n / 10 % 10, 48 + n % 10]
  {
    Powers();
    ThreeDigits(n / 10);
    LPadStep(n, 4);
  }

  /**
   The layout of the column: the tenant's length in three decimal digits, the tenant, the source's length in four,
   the source, and the event id to the end.
   */
  lemma KeyLayout(id: Identity)
    requires ValidIdentity(id)
    ensures var k, t, s := KeyOf(id), Utf8Len(id.tenant), Utf8Len(id.source);
            && |k| == 7 + t + s + Utf8Len(id.eventId)
            && k[0] == 48 + t / 100 && k[1] == 48 + t / 10 % 10 && k[2] == 48 + t % 10
            && k[3..3 + t] == Encode(id.tenant)
            && k[3 + t] == 48 + s / 1_000 && k[4 + t] == 48 + s / 100 % 10 && k[5 + t] == 48 + s / 10 % 10 && k[6 + t] == 48 + s % 10
            && k[7 + t..7 + t + s] == Encode(id.source)
            && k[7 + t + s..] == Encode(id.eventId)
  {
    ThreeDigits(Utf8Len(id.tenant));
    FourDigits(Utf8Len(id.source));
  }

  /** The bound on the tenant is needed: a length past three digits loses its tail and the key becomes ambiguous. */
  lemma LongTenantsCollide()
    ensures var t, t' := seq(1000, _ => 48), seq(1004, _ => 48);
            var s, s' := seq(4, _ => 48), [];
            t != t' && Key(t, [], s) == Key(t', [], s')
  {
    var t, t' := seq(1000, _ => 48 as Byte), seq(1004, _ => 48 as Byte);
    var s := seq(4, _ => 48 as Byte);
    assert Digits(1000)[..3] == "100" && Digits(1004)[..3] == "100";
    var zeros := LengthField(0, 4);
    assert zeros == [48, 48, 48, 48];
    assert t + zeros + [] + s == t' + zeros + [] + [];
  }
}
