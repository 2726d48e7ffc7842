/** Fixed-width decimal fields and the byte order of text that starts with them. */
module Decimals {
  function Pow10(k: nat): (p: nat)
    ensures p > 0
  {
    if k == 0 then 1 else 10 * Pow10(k - 1)
  }

  function DigitChar(d: int): char
    requires 0 <= d < 10
  {
    '0' + d as char
  }

  predicate IsDigit(c: char) {
    '0' <= c <= '9'
  }

  /** `n` in exactly `width` digits; higher digits are lost. */
  function Padded(n: nat, width: nat): (s: string)
    ensures |s| == width
    ensures forall i :: 0 <= i < width ==> IsDigit(s[i])
  {
    if width == 0 then [] else Padded(n / 10, width - 1) + [DigitChar(n % 10)]
  }

  /** The number a run of digits denotes. */
  function Value(s: string): (n: nat)
    requires forall i :: 0 <= i < |s| ==> IsDigit(s[i])
  {
    if s == [] then 0
    else
      assert IsDigit(s[|s| - 1]);
      10 * Value(s[..|s| - 1]) + (s[|s| - 1] as int - '0' as int)
  }

  lemma {:induction false} PaddedValue(n: nat, width: nat)
    requires n < Pow10(width)
    ensures Value(Padded(n, width)) == n
  {
    if width > 0 {
      PaddedValue(n / 10, width - 1);
      assert Padded(n, width)[..width - 1] == Padded(n / 10, width - 1);
    }
  }

  /** The shortest decimal of a number. */
  function Digits(n: nat): (s: string)
    ensures s != [] && IsDigit(s[0]) && forall i :: 0 <= i < |s| ==> IsDigit(s[i])
  {
    if n < 10 then [DigitChar(n)] else Digits(n / 10) + [DigitChar(n % 10)]
  }

  lemma {:induction false} DigitsRead(n: nat)
    ensures Value(Digits(n)) == n && (Digits(n)[0] == '0' ==> n == 0) && (n == 0 ==> |Digits(n)| == 1)
  {
    if n >= 10 {
      DigitsRead(n / 10);
      assert Digits(n)[..|Digits(n)| - 1] == Digits(n / 10);
    }
  }

  /** Lexicographic order, as a binary collation compares text. */
  predicate Leq(a: string, b: string) {
    a == [] || (b != [] && (a[0] < b[0] || (a[0] == b[0] && Leq(a[1..], b[1..]))))
  }

  lemma {:induction false} LeqPrefix(p: string, x: string, y: string)
    ensures Leq(p + x, p + y) <==> Leq(x, y)
  {
    if p == [] {
      assert p + x == x && p + y == y;
    } else {
      assert (p + x)[1..] == p[1..] + x && (p + y)[1..] == p[1..] + y;
      LeqPrefix(p[1..], x, y);
    }
  }

  lemma LeqHead(a: char, b: char, x: string, y: string)
    ensures Leq([a] + x, [b] + y) <==> a < b || (a == b && Leq(x, y))
  {
    assert ([a] + x)[1..] == x && ([b] + y)[1..] == y;
  }

  lemma {:induction false} LeqTotal(a: string, b: string)
    ensures Leq(a, b) || Leq(b, a)
    ensures Leq(a, b) && Leq(b, a) ==> a == b
  {
    if a != [] && b != [] && a[0] == b[0] {
      LeqTotal(a[1..], b[1..]);
      assert a == [a[0]] + a[1..] && b == [b[0]] + b[1..];
    }
  }

  lemma {:induction false} LeqTrans(a: string, b: string, c: string)
    requires Leq(a, b) && Leq(b, c)
    ensures Leq(a, c)
  {
    if a != [] && a[0] == b[0] && b[0] == c[0] {
      LeqTrans(a[1..], b[1..], c[1..]);
    }
  }

  /** Text order of equal-width fields is number order. */
  lemma {:induction false} LeqPadded(a: nat, b: nat, width: nat, x: string, y: string)
    requires a < Pow10(width) && b < Pow10(width)
    ensures Leq(Padded(a, width) + x, Padded(b, width) + y) <==> a < b || (a == b && Leq(x, y))
  {
    if width == 0 {
      assert Padded(a, 0) + x == x && Padded(b, 0) + y == y;
    } else {
      var p, q := DigitChar(a % 10), DigitChar(b % 10);
      assert Padded(a, width) + x == Padded(a / 10, width - 1) + ([p] + x);
      assert Padded(b, width) + y == Padded(b / 10, width - 1) + ([q] + y);
      LeqPadded(a / 10, b / 10, width - 1, [p] + x, [q] + y);
      LeqHead(p, q, x, y);
    }
  }

  /** `q` followed by `k` zeros. */
  function Scale(q: nat, k: nat): nat {
    if k == 0 then q else 10 * Scale(q, k - 1)
  }

  /** A field splits into its leading digits and its last `k`. */
  lemma {:induction false} PaddedSplits(q: nat, r: nat, width: nat, k: nat)
    requires k <= width && r < Pow10(k)
    ensures Padded(Scale(q, k) + r, width) == Padded(q, width - k) + Padded(r, k)
  {
    if k > 0 {
      var x := Scale(q, k - 1);
      assert (10 * x + r) / 10 == x + r / 10 && (10 * x + r) % 10 == r % 10;
      PaddedSplits(q, r / 10, width - 1, k - 1);
    }
  }

  lemma Powers()
    ensures Pow10(1) == 10 && Pow10(2) == 100 && Pow10(3) == 1_000 && Pow10(4) == 10_000
    ensures Pow10(5) == 100_000 && Pow10(6) == 1_000_000
  {
    assert Pow10(0) == 1;
    assert Pow10(1) == 10;
    assert Pow10(2) == 100;
    assert Pow10(3) == 1_000;
    assert Pow10(4) == 10_000;
    assert Pow10(5) == 100_000;
  }
}
