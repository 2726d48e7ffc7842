/**
 Instants as text (section 5.6 of RFC 3339).  SQLite stores and compares them as text: the database writes six
 fraction digits, while the adapter's own formatter drops trailing zeros.
 */
module TimeText {
  import opened Bounds
  import opened Calendar
  import opened Decimals

  const DAY_SECONDS := 86_400

  function DateText(day: nat): string {
    var d := DateOf(day);
    Padded(d.year, 4) + ("-" + (Padded(d.month, 2) + ("-" + Padded(d.day, 2))))
  }

  function ClockText(second: nat): string {
    Padded(second / 3600, 2) + (":" + (Padded(second / 60 % 60, 2) + (":" + Padded(second % 60, 2))))
  }

  function SecondText(t: nat): string {
    DateText(t / DAY_SECONDS) + ("T" + ClockText(t % DAY_SECONDS))
  }

  /** The database's form: always six fraction digits. */
  function FixedTail(micros: nat): string {
    "." + (Padded(micros, 6) + "Z")
  }

  function FixedText(t: nat): string {
    SecondText(t / SECOND) + FixedTail(t % SECOND)
  }

  /** How many of the six fraction digits are trailing zeros. */
  function TrailingZeros(micros: nat): (z: nat)
    ensures z <= 6
  {
    if micros % 1_000_000 == 0 then 6
    else if micros % 100_000 == 0 then 5
    else if micros % 10_000 == 0 then 4
    else if micros % 1_000 == 0 then 3
    else if micros % 100 == 0 then 2
    else if micros % 10 == 0 then 1
    else 0
  }

  /** The adapter's form: the fraction without its trailing zeros, and no point when nothing is left. */
  function TrimmedTail(micros: nat): string {
    var z := TrailingZeros(micros);
    if z == 6 then "Z" else "." + (Padded(micros, 6)[..6 - z] + "Z")
  }

  function TrimmedText(t: nat): string {
    SecondText(t / SECOND) + TrimmedTail(t % SECOND)
  }

  // ----- Text order -----

  lemma LeqField(a: nat, b: nat, width: nat, sep: string, x: string, y: string)
    requires a < Pow10(width) && b < Pow10(width)
    ensures Leq(Padded(a, width) + (sep + x), Padded(b, width) + (sep + y)) <==> a < b || (a == b && Leq(x, y))
  {
    LeqPadded(a, b, width, sep + x, sep + y);
    LeqPrefix(sep, x, y);
  }

  lemma DateOrder(m: nat, n: nat, x: string, y: string)
    requires m < DAYS && n < DAYS
    ensures Leq(DateText(m) + x, DateText(n) + y) <==> m < n || (m == n && Leq(x, y))
  {
    var c, d := DateOf(m), DateOf(n);
    Powers();
    FourDigitYears(m, c);
    FourDigitYears(n, d);
    var c3, d3 := Padded(c.day, 2) + x, Padded(d.day, 2) + y;
    var c2, d2 := Padded(c.month, 2) + ("-" + c3), Padded(d.month, 2) + ("-" + d3);
    assert DateText(m) + x == Padded(c.year, 4) + ("-" + c2);
    assert DateText(n) + y == Padded(d.year, 4) + ("-" + d2);
    LeqField(c.year, d.year, 4, "-", c2, d2);
    LeqField(c.month, d.month, 2, "-", c3, d3);
    LeqPadded(c.day, d.day, 2, x, y);
    SameDate(m, n);
  }

  /** The clock fields recombine, so comparing them in turn compares the second of the day. */
  lemma ClockFields(m: nat)
    requires m < DAY_SECONDS
    ensures m == 3600 * (m / 3600) + 60 * (m / 60 % 60) + m % 60 && m / 3600 < 24
  {
  }

  lemma ClockOrder(m: nat, n: nat, x: string, y: string)
    requires m < DAY_SECONDS && n < DAY_SECONDS
    ensures Leq(ClockText(m) + x, ClockText(n) + y) <==> m < n || (m == n && Leq(x, y))
  {
    Powers();
    ClockFields(m);
    ClockFields(n);
    FieldsOrder(m / 3600, m / 60 % 60, m % 60, n / 3600, n / 60 % 60, n % 60, x, y);
    assert ClockText(m) + x == Padded(m / 3600, 2) + (":" + (Padded(m / 60 % 60, 2) + (":" + (Padded(m % 60, 2) + x))));
    assert ClockText(n) + y == Padded(n / 3600, 2) + (":" + (Padded(n / 60 % 60, 2) + (":" + (Padded(n % 60, 2) + y))));
  }

  lemma FieldsOrder(a: nat, b: nat, c: nat, d: nat, e: nat, f: nat, x: string, y: string)
    requires a < Pow10(2) && b < Pow10(2) && c < Pow10(2) && d < Pow10(2) && e < Pow10(2) && f < Pow10(2)
    ensures Leq(Padded(a, 2) + (":" + (Padded(b, 2) + (":" + (Padded(c, 2) + x)))), Padded(d, 2) + (":" + (Padded(e, 2) + (":" + (Padded(f, 2) + y)))))
            <==> a < d || (a == d && (b < e || (b == e && (c < f || (c == f && Leq(x, y))))))
  {
    LeqPadded(c, f, 2, x, y);
    LeqField(b, e, 2, ":", Padded(c, 2) + x, Padded(f, 2) + y);
    LeqField(a, d, 2, ":", Padded(b, 2) + (":" + (Padded(c, 2) + x)), Padded(e, 2) + (":" + (Padded(f, 2) + y)));
  }

  lemma SecondOrder(m: nat, n: nat, x: string, y: string)
    requires m < DAYS * DAY_SECONDS && n < DAYS * DAY_SECONDS
    ensures Leq(SecondText(m) + x, SecondText(n) + y) <==> m < n || (m == n && Leq(x, y))
  {
    var c, d := ClockText(m % DAY_SECONDS) + x, ClockText(n % DAY_SECONDS) + y;
    assert SecondText(m) + x == DateText(m / DAY_SECONDS) + ("T" + c);
    assert SecondText(n) + y == DateText(n / DAY_SECONDS) + ("T" + d);
    DateOrder(m / DAY_SECONDS, n / DAY_SECONDS, "T" + c, "T" + d);
    LeqPrefix("T", c, d);
    ClockOrder(m % DAY_SECONDS, n % DAY_SECONDS, x, y);
  }

  /** Between instants the database wrote, text order is time order. */
  lemma FixedTextOrder(a: nat, b: nat)
    requires ValidInstant(a) && ValidInstant(b)
    ensures Leq(FixedText(a), FixedText(b)) <==> a <= b
  {
    SecondOrder(a / SECOND, b / SECOND, FixedTail(a % SECOND), FixedTail(b % SECOND));
    Powers();
    LeqPrefix(".", Padded(a % SECOND, 6) + "Z", Padded(b % SECOND, 6) + "Z");
    LeqPadded(a % SECOND, b % SECOND, 6, "Z", "Z");
    assert Leq("Z", "Z") by {
      LeqPrefix("Z", "", "");
      assert "Z" + "" == "Z";
    }
  }

  /** How long after its instant a trimmed text stays above the database's texts. */
  function FractionDelay(micros: nat): nat {
    var z := TrailingZeros(micros);
    if z == 0 then 0 else Pow10(z)
  }

  function Delay(t: nat): nat {
    FractionDelay(t % SECOND)
  }

  lemma Scales(q: nat)
    ensures Scale(q, 0) == q && Scale(q, 1) == 10 * q && Scale(q, 2) == 100 * q && Scale(q, 3) == 1_000 * q
    ensures Scale(q, 4) == 10_000 * q && Scale(q, 5) == 100_000 * q
  {
    assert Scale(q, 2) == 10 * Scale(q, 1);
    assert Scale(q, 3) == 10 * Scale(q, 2);
    assert Scale(q, 4) == 10 * Scale(q, 3);
    assert Scale(q, 5) == 10 * Scale(q, 4);
  }

  lemma LastZ(tail: string, z: nat)
    requires |tail| == z + 1 && tail[z] == 'Z' && (z > 0 ==> IsDigit(tail[0]))
    ensures Leq("Z", tail) <==> z == 0
  {
    LeqHead('Z', tail[0], "", tail[1..]);
    assert "Z" == ['Z'] + "" && tail == [tail[0]] + tail[1..];
  }

  /** Fractions that end in exactly `z` zeros, against full ones, by their leading digits. */
  lemma TailOrderAt(f: nat, g: nat, z: nat, p: nat, q: nat, r: nat)
    requires z < 6 && TrailingZeros(f) == z && f == Scale(p, z) && g == Scale(q, z) + r
    requires r < Pow10(z) && p < Pow10(6 - z) && q < Pow10(6 - z)
    ensures Leq(TrimmedTail(f), FixedTail(g)) <==> p < q || (p == q && z == 0)
  {
    PaddedSplits(p, 0, 6, z);
    PaddedSplits(q, r, 6, z);
    var tail := Padded(r, z) + "Z";
    assert TrimmedTail(f) == "." + (Padded(p, 6 - z) + "Z");
    assert FixedTail(g) == "." + (Padded(q, 6 - z) + tail);
    LeqPrefix(".", Padded(p, 6 - z) + "Z", Padded(q, 6 - z) + tail);
    LeqPadded(p, q, 6 - z, "Z", tail);
    LastZ(tail, z);
  }

  lemma TailOrder5(f: nat, g: nat)
    requires f < SECOND && g < SECOND && TrailingZeros(f) == 5
    ensures Leq(TrimmedTail(f), FixedTail(g)) <==> f + 100_000 <= g
  {
    Powers();
    Scales(f / 100_000);
    Scales(g / 100_000);
    TailOrderAt(f, g, 5, f / 100_000, g / 100_000, g % 100_000);
  }

  lemma TailOrder4(f: nat, g: nat)
    requires f < SECOND && g < SECOND && TrailingZeros(f) == 4
    ensures Leq(TrimmedTail(f), FixedTail(g)) <==> f + 10_000 <= g
  {
    Powers();
    Scales(f / 10_000);
    Scales(g / 10_000);
    TailOrderAt(f, g, 4, f / 10_000, g / 10_000, g % 10_000);
  }

  lemma TailOrder3(f: nat, g: nat)
    requires f < SECOND && g < SECOND && TrailingZeros(f) == 3
    ensures Leq(TrimmedTail(f), FixedTail(g)) <==> f + 1_000 <= g
  {
    Powers();
    Scales(f / 1_000);
    Scales(g / 1_000);
    TailOrderAt(f, g, 3, f / 1_000, g / 1_000, g % 1_000);
  }

  lemma TailOrder2(f: nat, g: nat)
    requires f < SECOND && g < SECOND && TrailingZeros(f) == 2
    ensures Leq(TrimmedTail(f), FixedTail(g)) <==> f + 100 <= g
  {
    Powers();
    Scales(f / 100);
    Scales(g / 100);
    TailOrderAt(f, g, 2, f / 100, g / 100, g % 100);
  }

  lemma TailOrder1(f: nat, g: nat)
    requires f < SECOND && g < SECOND && TrailingZeros(f) == 1
    ensures Leq(TrimmedTail(f), FixedTail(g)) <==> f + 10 <= g
  {
    Powers();
    Scales(f / 10);
    Scales(g / 10);
    TailOrderAt(f, g, 1, f / 10, g / 10, g % 10);
  }

  /** Within one second: a trimmed fraction against a full one. */
  lemma TailOrder(f: nat, g: nat)
    requires f < SECOND && g < SECOND
    ensures Leq(TrimmedTail(f), FixedTail(g)) <==> f + FractionDelay(f) <= g
  {
    Powers();
    match TrailingZeros(f)
    case 6 =>
      LeqHead('Z', '.', "", Padded(g, 6) + "Z");
      assert "Z" == ['Z'] + "" && FixedTail(g) == ['.'] + (Padded(g, 6) + "Z");
    case 5 => TailOrder5(f, g);
    case 4 => TailOrder4(f, g);
    case 3 => TailOrder3(f, g);
    case 2 => TailOrder2(f, g);
    case 1 => TailOrder1(f, g);
    case _ => TailOrderAt(f, g, 0, f, g, 0);
  }

  /**
   An imported row's text lies at or below the database's text for `now` exactly from `Delay` after its instant:
   never early, late by the unit of its last non-zero digit, and never later than the next whole second.
   */
  lemma TrimmedTextOrder(t: nat, now: nat)
    requires ValidInstant(t) && ValidInstant(now)
    ensures Leq(TrimmedText(t), FixedText(now)) <==> t + Delay(t) <= now
    ensures Delay(t) <= SECOND
    ensures Leq(TrimmedText(t), FixedText(now)) ==> t <= now
    ensures t / SECOND < now / SECOND ==> Leq(TrimmedText(t), FixedText(now))
  {
    SecondOrder(t / SECOND, now / SECOND, TrimmedTail(t % SECOND), FixedTail(now % SECOND));
    TailOrder(t % SECOND, now % SECOND);
    DelayStaysInSecond(t % SECOND);
    Recombine(t / SECOND, t % SECOND, now / SECOND, now % SECOND, Delay(t));
  }

  lemma Recombine(a: nat, f: nat, b: nat, g: nat, d: nat)
    requires f < SECOND && g < SECOND && f + d <= SECOND
    ensures SECOND * a + f + d <= SECOND * b + g <==> a < b || (a == b && f + d <= g)
  {
  }

  /** A delayed instant is at most the next whole second. */
  lemma DelayStaysInSecond(f: nat)
    requires f < SECOND
    ensures f + FractionDelay(f) <= SECOND
  {
    Powers();
  }
}
