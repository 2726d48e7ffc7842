/** Reading stored instants back. */
module TimeParsing {
  import opened Wrappers
  import opened Bounds
  import opened Calendar
  import opened Decimals
  import opened TimeText

  predicate AllDigits(s: string) {
    forall i :: 0 <= i < |s| ==> IsDigit(s[i])
  }

  function ParseDate(s: string): Option<int>
    requires |s| == 10
  {
    if AllDigits(s[..4]) && s[4] == '-' && AllDigits(s[5..7]) && s[7] == '-' && AllDigits(s[8..]) then
      var d := Date(Value(s[..4]), Value(s[5..7]), Value(s[8..]));
      if ValidDate(d) then Some(DayNumber(d)) else None
    else None
  }

  function ParseClock(s: string): Option<int>
    requires |s| == 8
  {
    if AllDigits(s[..2]) && s[2] == ':' && AllDigits(s[3..5]) && s[5] == ':' && AllDigits(s[6..]) then
      var h, m, c := Value(s[..2]), Value(s[3..5]), Value(s[6..]);
      if h < 24 && m < 60 && c < 60 then Some(3600 * h + 60 * m + c) else None
    else None
  }

  /** A fraction of one to six digits, or none. */
  function ParseTail(s: string): Option<int> {
    if s == "Z" then Some(0)
    else if 3 <= |s| <= 8 && s[0] == '.' && AllDigits(s[1..|s| - 1]) && s[|s| - 1] == 'Z'
    then Some(Scale(Value(s[1..|s| - 1]), 8 - |s|))
    else None
  }

  function ParseText(s: string): Option<int> {
    if |s| < 20 || s[10] != 'T' then None
    else
      match (ParseDate(s[..10]), ParseClock(s[11..19]), ParseTail(s[19..]))
      case (Some(day), Some(second), Some(micros)) => Some((day * DAY_SECONDS + second) * SECOND + micros)
      case _ => None
  }

  lemma DateReads(n: nat)
    requires n < DAYS
    ensures |DateText(n)| == 10 && ParseDate(DateText(n)) == Some(n)
  {
    var d, s := DateOf(n), DateText(n);
    Powers();
    FourDigitYears(n, d);
    assert s[..4] == Padded(d.year, 4) && s[5..7] == Padded(d.month, 2) && s[8..] == Padded(d.day, 2);
    PaddedValue(d.year, 4);
    PaddedValue(d.month, 2);
    PaddedValue(d.day, 2);
    NumberOfDate(n);
  }

  lemma ClockReads(m: nat)
    requires m < DAY_SECONDS
    ensures |ClockText(m)| == 8 && ParseClock(ClockText(m)) == Some(m)
  {
    var s := ClockText(m);
    Powers();
    ClockFields(m);
    assert s[..2] == Padded(m / 3600, 2) && s[3..5] == Padded(m / 60 % 60, 2) && s[6..] == Padded(m % 60, 2);
    PaddedValue(m / 3600, 2);
    PaddedValue(m / 60 % 60, 2);
    PaddedValue(m % 60, 2);
  }

  lemma TailReads(s: string, d: string)
    requires 1 <= |d| <= 6 && AllDigits(d) && |s| == |d| + 2 && s[0] == '.' && s[|s| - 1] == 'Z' && s[1..|s| - 1] == d
    ensures ParseTail(s) == Some(Scale(Value(d), 6 - |d|))
  {
    assert |"Z"| == 1;
  }

  lemma FractionReads(d: string)
    requires 1 <= |d| <= 6 && AllDigits(d)
    ensures ParseTail("." + (d + "Z")) == Some(Scale(Value(d), 6 - |d|))
  {
    TailReads("." + (d + "Z"), d);
  }

  lemma FixedTailReads(f: nat)
    requires f < SECOND
    ensures ParseTail(FixedTail(f)) == Some(f)
  {
    Powers();
    PaddedValue(f, 6);
    FractionReads(Padded(f, 6));
  }

  lemma KeptDigitsRead(f: nat, z: nat, p: nat)
    requires z < 6 && TrailingZeros(f) == z && f == Scale(p, z) && p < Pow10(6 - z)
    ensures ParseTail(TrimmedTail(f)) == Some(f)
  {
    PaddedSplits(p, 0, 6, z);
    assert Padded(f, 6)[..6 - z] == Padded(p, 6 - z);
    PaddedValue(p, 6 - z);
    FractionReads(Padded(p, 6 - z));
  }

  lemma TrimmedTailReads(f: nat)
    requires f < SECOND
    ensures ParseTail(TrimmedTail(f)) == Some(f)
  {
    Powers();
    match TrailingZeros(f)
    case 6 =>
    case 5 => Scales(f / 100_000); KeptDigitsRead(f, 5, f / 100_000);
    case 4 => Scales(f / 10_000); KeptDigitsRead(f, 4, f / 10_000);
    case 3 => Scales(f / 1_000); KeptDigitsRead(f, 3, f / 1_000);
    case 2 => Scales(f / 100); KeptDigitsRead(f, 2, f / 100);
    case 1 => Scales(f / 10); KeptDigitsRead(f, 1, f / 10);
    case _ => KeptDigitsRead(f, 0, f);
  }

  lemma PartsRead(date: string, clock: string, tail: string, day: int, second: int, micros: int)
    requires |date| == 10 && |clock| == 8 && tail != []
    requires ParseDate(date) == Some(day) && ParseClock(clock) == Some(second) && ParseTail(tail) == Some(micros)
    ensures ParseText(date + ("T" + clock) + tail) == Some((day * DAY_SECONDS + second) * SECOND + micros)
  {
    var s := date + ("T" + clock) + tail;
    assert s[..10] == date && s[10] == 'T' && s[11..19] == clock && s[19..] == tail;
  }

  lemma SecondReads(n: nat, tail: string, micros: int)
    requires n < DAYS * DAY_SECONDS && tail != [] && ParseTail(tail) == Some(micros)
    ensures ParseText(SecondText(n) + tail) == Some(n * SECOND + micros)
  {
    DateReads(n / DAY_SECONDS);
    ClockReads(n % DAY_SECONDS);
    PartsRead(DateText(n / DAY_SECONDS), ClockText(n % DAY_SECONDS), tail, n / DAY_SECONDS, n % DAY_SECONDS, micros);
  }

  /** The database's text of every supported instant reads back as that instant. */
  lemma FixedTextReads(t: nat)
    requires ValidInstant(t)
    ensures ParseText(FixedText(t)) == Some(t)
  {
    FixedTailReads(t % SECOND);
    SecondReads(t / SECOND, FixedTail(t % SECOND), t % SECOND);
  }

  /** So does the adapter's. */
  lemma TrimmedTextReads(t: nat)
    requires ValidInstant(t)
    ensures ParseText(TrimmedText(t)) == Some(t)
  {
    TrimmedTailReads(t % SECOND);
    SecondReads(t / SECOND, TrimmedTail(t % SECOND), t % SECOND);
  }

  // ----- The texts themselves -----

  lemma DateLayout(n: nat)
    requires n < DAYS
    ensures var s := DateText(n);
            && |s| == 10 && AllDigits(s[..4]) && s[4] == '-' && AllDigits(s[5..7]) && s[7] == '-' && AllDigits(s[8..])
            && var d := Date(Value(s[..4]), Value(s[5..7]), Value(s[8..])); ValidDate(d) && DayNumber(d) == n
  {
    DateReads(n);
  }

  lemma ClockLayout(m: nat)
    requires m < DAY_SECONDS
    ensures var s := ClockText(m);
            && |s| == 8 && AllDigits(s[..2]) && s[2] == ':' && AllDigits(s[3..5]) && s[5] == ':' && AllDigits(s[6..])
            && Value(s[..2]) < 24 && Value(s[3..5]) < 60 && Value(s[6..]) < 60
            && m == 3600 * Value(s[..2]) + 60 * Value(s[3..5]) + Value(s[6..])
  {
    ClockReads(m);
  }

  /** The parts of the database's text: a date, a time of day and six fraction digits that add up to the instant. */
  lemma FixedLayout(t: nat)
    requires ValidInstant(t)
    ensures var s := FixedText(t);
            && |s| == 27 && s[10] == 'T' && s[19] == '.' && s[26] == 'Z'
            && s[..10] == DateText(t / SECOND / DAY_SECONDS) && s[11..19] == ClockText(t / SECOND % DAY_SECONDS)
            && AllDigits(s[20..26]) && Value(s[20..26]) == t % SECOND
  {
    var s, f := FixedText(t), t % SECOND;
    DateReads(t / SECOND / DAY_SECONDS);
    ClockReads(t / SECOND % DAY_SECONDS);
    Powers();
    PaddedValue(f, 6);
    assert s[..10] == DateText(t / SECOND / DAY_SECONDS) && s[11..19] == ClockText(t / SECOND % DAY_SECONDS);
    assert s[20..26] == Padded(f, 6);
  }

  /** Where a fraction's digits end: everything after is zero, the digit before is not. */
  lemma ZerosTrail(f: nat, z: nat, p: nat)
    requires z < 6 && f == Scale(p, z) && p < Pow10(6 - z) && p % 10 != 0
    ensures Padded(f, 6)[5 - z] != '0' && forall i :: 6 - z <= i < 6 ==> Padded(f, 6)[i] == '0'
  {
    PaddedSplits(p, 0, 6, z);
    assert Padded(p, 6 - z)[5 - z] == DigitChar(p % 10);
    ZeroDigits(z);
    forall i | 6 - z <= i < 6 ensures Padded(f, 6)[i] == '0' {
      assert Padded(f, 6)[i] == Padded(0, z)[i - (6 - z)];
    }
  }

  lemma {:induction false} ZeroDigits(z: nat)
    ensures forall i :: 0 <= i < z ==> Padded(0, z)[i] == '0'
  {
    if z > 0 {
      ZeroDigits(z - 1);
    }
  }

  lemma Drop5(f: nat)
    requires f % 100_000 == 0 && f % 1_000_000 != 0
    ensures f / 100_000 % 10 != 0 && f == Scale(f / 100_000, 5)
  {
    Scales(f / 100_000);
  }

  lemma Drop4(f: nat)
    requires f % 10_000 == 0 && f % 100_000 != 0
    ensures f / 10_000 % 10 != 0 && f == Scale(f / 10_000, 4)
  {
    Scales(f / 10_000);
  }

  lemma Drop3(f: nat)
    requires f % 1_000 == 0 && f % 10_000 != 0
    ensures f / 1_000 % 10 != 0 && f == Scale(f / 1_000, 3)
  {
    Scales(f / 1_000);
  }

  lemma Drop2(f: nat)
    requires f % 100 == 0 && f % 1_000 != 0
    ensures f / 100 % 10 != 0 && f == Scale(f / 100, 2)
  {
    Scales(f / 100);
  }

  lemma Drop1(f: nat)
    requires f % 10 == 0 && f % 100 != 0
    ensures f / 10 % 10 != 0 && f == Scale(f / 10, 1)
  {
    Scales(f / 10);
  }

  /** The fraction without its trailing zeros. */
  lemma LeadingDigits(f: nat) returns (p: nat)
    requires 0 < f < SECOND
    ensures var z := TrailingZeros(f); z < 6 && p % 10 != 0 && f == Scale(p, z) && p < Pow10(6 - z)
  {
    Powers();
    if f % 100_000 == 0 {
      p := f / 100_000;
      Drop5(f);
    } else if f % 10_000 == 0 {
      p := f / 10_000;
      Drop4(f);
    } else if f % 1_000 == 0 {
      p := f / 1_000;
      Drop3(f);
    } else if f % 100 == 0 {
      p := f / 100;
      Drop2(f);
    } else if f % 10 == 0 {
      p := f / 10;
      Drop1(f);
    } else {
      p := f;
    }
  }

  lemma TrailingZerosAre(f: nat)
    requires 0 < f < SECOND
    ensures var z := TrailingZeros(f);
            z < 6 && Padded(f, 6)[5 - z] != '0' && forall i :: 6 - z <= i < 6 ==> Padded(f, 6)[i] == '0'
  {
    var p := LeadingDigits(f);
    ZerosTrail(f, TrailingZeros(f), p);
  }

  /** The adapter's text is the database's without the zeros that end its fraction, and without the point if all are zero. */
  lemma TrimmedLayout(t: nat) returns (end: nat)
    requires ValidInstant(t)
    ensures |FixedText(t)| == 27 && 19 <= end <= 26 && TrimmedText(t) == FixedText(t)[..end] + "Z"
    ensures if t % SECOND == 0 then end == 19 else end > 20 && FixedText(t)[end - 1] != '0'
    ensures forall i :: end <= i < 26 ==> FixedText(t)[i] == '0' || FixedText(t)[i] == '.'
  {
    FixedLayout(t);
    var s, f := FixedText(t), t % SECOND;
    assert s == SecondText(t / SECOND) + ("." + (Padded(f, 6) + "Z"));
    assert |SecondText(t / SECOND)| == 19;
    if f == 0 {
      end := 19;
      ZeroDigits(6);
    } else {
      TrailingZerosAre(f);
      end := 26 - TrailingZeros(f);
      assert s[..end] == SecondText(t / SECOND) + ("." + Padded(f, 6)[..6 - TrailingZeros(f)]);
    }
  }

  /** Instants are supported from the first to the last microsecond of the calendar. */
  lemma SupportedInstants()
    ensures DayNumber(Date(1970, 1, 1)) == 0
    ensures MAX_INSTANT == (DayNumber(Date(9999, 12, 31)) * DAY_SECONDS + 86_399) * SECOND + 999_999
  {
    YearLength(9_999);
    LastYearEnds();
  }

  // ----- What this means for the SQLite guards -----

  /** The candidate query's comparison on a row that was imported, whose availability is stored trimmed. */
  predicate ImportedEligible(availableAt: nat, now: nat) {
    Leq(TrimmedText(availableAt), FixedText(now))
  }

  /** The comparison with a text the database wrote, such as every expiry. */
  predicate TextPassed(t: nat, now: nat) {
    Leq(FixedText(t), FixedText(now))
  }

  /** The text guard of a conditional update agrees with the classification, which parses both texts. */
  lemma GuardsAgree(expiresAt: nat, now: nat)
    requires ValidInstant(expiresAt) && ValidInstant(now)
    ensures TextPassed(expiresAt, now) <==>
              ParseText(FixedText(expiresAt)).Some? && ParseText(FixedText(now)).Some?
              && ParseText(FixedText(expiresAt)).value <= ParseText(FixedText(now)).value
  {
    FixedTextReads(expiresAt);
    FixedTextReads(now);
    FixedTextOrder(expiresAt, now);
  }

  /** An imported row is claimable exactly from `Delay` after its instant on. */
  lemma ImportedExactly(availableAt: nat, now: nat)
    requires ValidInstant(availableAt) && ValidInstant(now)
    ensures ImportedEligible(availableAt, now) <==> availableAt + Delay(availableAt) <= now
  {
    TrimmedTextOrder(availableAt, now);
  }

  /** The database's clock has whole milliseconds, so an imported row waits at least one and at most a second. */
  lemma ImportedRowsWait(availableAt: nat)
    requires availableAt % MILLISECOND == 0
    ensures MILLISECOND <= Delay(availableAt) <= SECOND
  {
    MillisecondDelay(availableAt % SECOND);
    DelayStaysInSecond(availableAt % SECOND);
  }

  /** In particular it is never claimable at the instant it was made available. */
  lemma NotClaimableAtOnce(availableAt: nat)
    requires ValidInstant(availableAt) && availableAt % MILLISECOND == 0
    ensures !ImportedEligible(availableAt, availableAt)
  {
    ImportedRowsWait(availableAt);
    ImportedExactly(availableAt, availableAt);
  }

  lemma MillisecondDelay(f: nat)
    requires f < SECOND && f % MILLISECOND == 0
    ensures FractionDelay(f) >= MILLISECOND
  {
    Powers();
  }
}
