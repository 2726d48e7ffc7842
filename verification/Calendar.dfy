/** Proleptic Gregorian dates from 1970-01-01, counted one day at a time and numbered in closed form. */
module Calendar {
  datatype Date = Date(year: int, month: int, day: int)

  const EPOCH := Date(1970, 1, 1)

  // Days from 1970-01-01 through 9999-12-31.
  const DAYS := 2_932_897

  predicate Leap(y: int) {
    y % 4 == 0 && (y % 100 != 0 || y % 400 == 0)
  }

  function DaysIn(y: int, m: int): int {
    if m == 2 then (if Leap(y) then 29 else 28)
    else if m == 4 || m == 6 || m == 9 || m == 11 then 30 else 31
  }

  predicate ValidDate(d: Date) {
    1970 <= d.year && 1 <= d.month <= 12 && 1 <= d.day <= DaysIn(d.year, d.month)
  }

  function NextDay(d: Date): Date {
    if d.day < DaysIn(d.year, d.month) then Date(d.year, d.month, d.day + 1)
    else if d.month < 12 then Date(d.year, d.month + 1, 1)
    else Date(d.year + 1, 1, 1)
  }

  function DateOf(n: nat): (d: Date)
    ensures ValidDate(d)
  {
    if n == 0 then EPOCH else NextDay(DateOf(n - 1))
  }

  function LeapsBefore(y: int): int {
    (y - 1) / 4 - (y - 1) / 100 + (y - 1) / 400
  }

  function YearStart(y: int): int {
    365 * (y - 1970) + LeapsBefore(y) - LeapsBefore(1970)
  }

  function MonthStart(y: int, m: int): int {
    if m <= 1 then 0 else MonthStart(y, m - 1) + DaysIn(y, m - 1)
  }

  /** The number of days from the epoch to a date. */
  function DayNumber(d: Date): int {
    YearStart(d.year) + MonthStart(d.year, d.month) + d.day - 1
  }

  lemma By4(y: int)
    ensures y / 4 - (y - 1) / 4 == if y % 4 == 0 then 1 else 0
  {
    var q, r := (y - 1) / 4, (y - 1) % 4;
    assert y == 4 * q + (r + 1);
    if r == 3 {
      assert y == 4 * (q + 1);
    }
  }

  lemma By100(y: int)
    ensures y / 100 - (y - 1) / 100 == if y % 100 == 0 then 1 else 0
  {
    var q, r := (y - 1) / 100, (y - 1) % 100;
    assert y == 100 * q + (r + 1);
    if r == 99 {
      assert y == 100 * (q + 1);
    }
  }

  lemma By400(y: int)
    ensures y / 400 - (y - 1) / 400 == if y % 400 == 0 then 1 else 0
  {
    var q, r := (y - 1) / 400, (y - 1) % 400;
    assert y == 400 * q + (r + 1);
    if r == 399 {
      assert y == 400 * (q + 1);
    }
  }

  lemma Divides(y: int)
    ensures y % 100 == 0 ==> y % 4 == 0
    ensures y % 400 == 0 ==> y % 100 == 0
  {
    assert y % 100 == 0 ==> y == 4 * (25 * (y / 100));
    assert y % 400 == 0 ==> y == 100 * (4 * (y / 400));
  }

  lemma LeapsCount(y: int)
    ensures LeapsBefore(y + 1) == LeapsBefore(y) + if Leap(y) then 1 else 0
  {
    By4(y);
    By100(y);
    By400(y);
    Divides(y);
  }

  lemma MonthsLength(y: int)
    ensures MonthStart(y, 12) + 31 == 365 + if Leap(y) then 1 else 0
  {
    assert MonthStart(y, 2) == MonthStart(y, 1) + 31 == 31;
    assert MonthStart(y, 3) == MonthStart(y, 2) + DaysIn(y, 2);
    assert MonthStart(y, 5) == MonthStart(y, 4) + 30 == MonthStart(y, 3) + 61;
    assert MonthStart(y, 7) == MonthStart(y, 6) + 30 == MonthStart(y, 5) + 61;
    assert MonthStart(y, 9) == MonthStart(y, 8) + 31 == MonthStart(y, 7) + 62;
    assert MonthStart(y, 11) == MonthStart(y, 10) + 31 == MonthStart(y, 9) + 61;
    assert MonthStart(y, 12) == MonthStart(y, 11) + 30;
  }

  lemma YearLength(y: int)
    ensures YearStart(y + 1) == YearStart(y) + 365 + if Leap(y) then 1 else 0
    ensures MonthStart(y, 12) + 31 == 365 + if Leap(y) then 1 else 0
  {
    LeapsCount(y);
    MonthsLength(y);
  }

  lemma NextDayNumber(d: Date)
    requires ValidDate(d)
    ensures DayNumber(NextDay(d)) == DayNumber(d) + 1
  {
    YearLength(d.year);
  }

  /** Counting days and numbering dates are inverse. */
  lemma {:induction false} NumberOfDate(n: nat)
    ensures DayNumber(DateOf(n)) == n
  {
    if n > 0 {
      NumberOfDate(n - 1);
      NextDayNumber(DateOf(n - 1));
    }
  }

  lemma {:induction false} MonthStartsNonNegative(y: int, m: int)
    ensures MonthStart(y, m) >= 0
  {
    if m > 1 {
      MonthStartsNonNegative(y, m - 1);
    }
  }

  lemma {:induction false} YearStartsGrow(y: int, y': int)
    requires y <= y'
    ensures YearStart(y) <= YearStart(y')
    decreases y' - y
  {
    if y < y' {
      YearLength(y);
      YearStartsGrow(y + 1, y');
    }
  }

  lemma LastYearEnds()
    ensures YearStart(10_000) == DAYS
  {
    assert 9_999 / 4 == 2_499 && 9_999 / 100 == 99 && 9_999 / 400 == 24;
    assert 1_969 / 4 == 492 && 1_969 / 100 == 19 && 1_969 / 400 == 4;
  }

  lemma LateDates(d: Date)
    requires ValidDate(d) && d.year >= 10_000
    ensures DayNumber(d) >= DAYS
  {
    LastYearEnds();
    YearStartsGrow(10_000, d.year);
    MonthStartsNonNegative(d.year, d.month);
  }

  /** The supported days end with the year 9999. */
  lemma FourDigitYears(n: nat, d: Date)
    requires n < DAYS && d == DateOf(n)
    ensures 1970 <= d.year <= 9999
  {
    NumberOfDate(n);
    if d.year >= 10_000 {
      LateDates(d);
    }
  }

  predicate Earlier(a: Date, b: Date) {
    a.year < b.year || (a.year == b.year && (a.month < b.month || (a.month == b.month && a.day < b.day)))
  }

  lemma {:induction false} LaterDaysAreLater(m: nat, n: nat)
    requires m < n
    ensures Earlier(DateOf(m), DateOf(n))
  {
    if m < n - 1 {
      LaterDaysAreLater(m, n - 1);
    }
  }

  /** Dates read back as the day they were counted to. */
  lemma SameDate(m: nat, n: nat)
    ensures DateOf(m) == DateOf(n) <==> m == n
    ensures Earlier(DateOf(m), DateOf(n)) <==> m < n
  {
    if m < n {
      LaterDaysAreLater(m, n);
    } else if n < m {
      LaterDaysAreLater(n, m);
    }
  }

  // ----- Every date is reached -----

  lemma {:induction false} MonthsGrow(y: int, m: int, m': int)
    requires 1 <= m < m' <= 13
    ensures MonthStart(y, m) + DaysIn(y, m) <= MonthStart(y, m')
    decreases m' - m
  {
    if m < m' - 1 {
      MonthsGrow(y, m, m' - 1);
    }
  }

  /** Earlier dates have smaller numbers. */
  lemma NumbersGrow(a: Date, b: Date)
    requires ValidDate(a) && ValidDate(b) && Earlier(a, b)
    ensures DayNumber(a) < DayNumber(b)
  {
    if a.year < b.year {
      if a.month < 12 {
        MonthsGrow(a.year, a.month, 12);
      }
      YearLength(a.year);
      YearStartsGrow(a.year + 1, b.year);
      MonthStartsNonNegative(b.year, b.month);
    } else if a.month < b.month {
      MonthsGrow(a.year, a.month, b.month);
    }
  }

  lemma NumberNonNegative(d: Date)
    requires ValidDate(d)
    ensures DayNumber(d) >= 0
  {
    YearStartsGrow(1970, d.year);
    MonthStartsNonNegative(d.year, d.month);
  }

  /** Counting as many days as a date's number arrives at that date. */
  lemma DateOfNumber(d: Date)
    requires ValidDate(d)
    ensures DayNumber(d) >= 0 && DateOf(DayNumber(d)) == d
  {
    NumberNonNegative(d);
    var e := DateOf(DayNumber(d));
    NumberOfDate(DayNumber(d));
    if Earlier(d, e) {
      NumbersGrow(d, e);
    } else if Earlier(e, d) {
      NumbersGrow(e, d);
    }
  }

  /** The Gregorian leap days, and the first and last supported day. */
  lemma KnownDates()
    ensures DateOf(0) == Date(1970, 1, 1) && DateOf(DAYS - 1) == Date(9999, 12, 31)
    ensures ValidDate(Date(2000, 2, 29)) && DateOf(11_016) == Date(2000, 2, 29) && ValidDate(Date(2024, 2, 29))
    ensures !ValidDate(Date(2100, 2, 29)) && DateOf(47_540) == Date(2100, 2, 28) && DateOf(47_541) == Date(2100, 3, 1)
  {
    YearLength(9_999);
    LastYearEnds();
    DateOfNumber(Date(9999, 12, 31));
    assert MonthStart(2000, 2) == 31 && MonthStart(2100, 2) == 31;
    assert YearStart(2000) == 10_957 && YearStart(2100) == 47_482;
    DateOfNumber(Date(2000, 2, 29));
    DateOfNumber(Date(2100, 2, 28));
    assert MonthStart(2100, 3) == MonthStart(2100, 2) + 28;
    DateOfNumber(Date(2100, 3, 1));
  }
}
