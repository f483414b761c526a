/** The proleptic Gregorian arithmetic that ECMA-262 (section 21.4.1) prescribes for
    `Date`, as far as `renderCalendar` uses it: `new Date(year, month, 1).getDay()` and
    `new Date(year, month + 1, 0).getDate()`. */
module Gregorian {
  import opened Navigation

  /** The `Date` constructor reads a year 0..99 as 1900..1999 (ECMA-262 section 21.4.2.1). */
  function MakeFullYear(year: int): (r: int)
    ensures 0 <= year <= 99 ==> r == 1900 + year
    ensures (year < 0 || year > 99) ==> r == year
  {
    if 0 <= year <= 99 then 1900 + year else year
  }

  predicate IsLeapYear(y: int) {
    y % 4 == 0 && (y % 100 != 0 || y % 400 == 0)
  }

  function DaysInYear(y: int): (r: int)
    ensures r == 365 || r == 366
    ensures r == 366 <==> IsLeapYear(y)
  {
    if IsLeapYear(y) then 366 else 365
  }

  /** The length of a zero-based month. */
  function DaysInMonth(y: int, m: int): (r: int)
    requires 0 <= m < 12
    ensures 28 <= r <= 31
    ensures r == 29 <==> m == 1 && IsLeapYear(y)
    ensures m == 1 ==> r <= 29
    ensures m != 1 ==> r >= 30
  {
    if m == 1 then (if IsLeapYear(y) then 29 else 28)
    else if m == 3 || m == 5 || m == 8 || m == 10 then 30
    else 31
  }

  /** Days of the year before the first of month `m`: the thresholds of ECMA-262's
      MonthFromTime table, plus one from March on in a leap year. */
  function DaysBeforeMonth(y: int, m: int): int
    requires 0 <= m <= 12
  {
    [0, 31, 59, 90, 120, 151, 181, 212, 243, 273, 304, 334, 365][m]
      + (if m >= 2 && IsLeapYear(y) then 1 else 0)
  }

  /** The month table agrees with the month lengths and closes on the year's length. */
  lemma MonthTableConsistent(y: int, m: int)
    requires 0 <= m < 12
    ensures DaysBeforeMonth(y, m + 1) == DaysBeforeMonth(y, m) + DaysInMonth(y, m)
    ensures DaysBeforeMonth(y, 12) == DaysInYear(y)
  {
  }

  /** DayFromYear of ECMA-262: the day number of January 1 of year `y`, where day 0 is
      1970-01-01; Dafny's `/` by a positive constant is the floor the standard asks for. */
  function DayFromYear(y: int): int {
    365 * (y - 1970) + (y - 1969) / 4 - (y - 1901) / 100 + (y - 1601) / 400
  }

  /** The day number of day `d` of the zero-based month `m` of year `y` (MakeDay). */
  function DayNumber(y: int, m: int, d: int): int
    requires 0 <= m < 12
  {
    DayFromYear(y) + DaysBeforeMonth(y, m) + d - 1
  }

  /** WeekDay of ECMA-262: 0 is Sunday, and day 0 (1970-01-01) was a Thursday. */
  function WeekDay(day: int): (r: int)
    ensures 0 <= r < 7
  {
    (day + 4) % 7
  }

  /** The three correction terms of DayFromYear each grow by one exactly at a multiple
      of 4, 100 and 400 respectively. */
  lemma FourYearTerm(y: int)
    ensures (y - 1968) / 4 - (y - 1969) / 4 == (if y % 4 == 0 then 1 else 0)
  {
    assert (y - 1968) % 4 == y % 4;
  }

  lemma CenturyTerm(y: int)
    ensures (y - 1900) / 100 - (y - 1901) / 100 == (if y % 100 == 0 then 1 else 0)
  {
    assert (y - 1900) % 100 == y % 100;
  }

  lemma QuadricentennialTerm(y: int)
    ensures (y - 1600) / 400 - (y - 1601) / 400 == (if y % 400 == 0 then 1 else 0)
  {
    assert (y - 1600) % 400 == y % 400;
  }

  /** Every fourth century year is a century year, and every century year a fourth year. */
  lemma DivisibilityChain(y: int)
    ensures y % 400 == 0 ==> y % 100 == 0
    ensures y % 100 == 0 ==> y % 4 == 0
  {
    if y % 400 == 0 {
      assert y == 400 * (y / 400);
      MultipleMod(y, 100, 4 * (y / 400));
    }
    if y % 100 == 0 {
      assert y == 100 * (y / 100);
      MultipleMod(y, 4, 25 * (y / 100));
    }
  }

  lemma MultipleMod(y: int, k: int, m: int)
    requires k > 0 && y == k * m
    ensures y % k == 0
  {
    DivModUnique(y, k, m, 0);
  }

  lemma MulAtLeast(k: int, d: int)
    requires k > 0 && d >= 1
    ensures k * d >= k
    decreases d
  {
    if d > 1 {
      MulAtLeast(k, d - 1);
      assert k * d == k * (d - 1) + k;
    }
  }

  /** Quotient and remainder are unique. */
  lemma DivModUnique(x: int, k: int, q: int, r: int)
    requires k > 0 && 0 <= r < k && x == k * q + r
    ensures x / k == q && x % k == r
  {
    var q', r' := x / k, x % k;
    assert x == k * q' + r';
    assert k * (q - q') == r' - r;
    if q > q' {
      MulAtLeast(k, q - q');
    } else if q < q' {
      MulAtLeast(k, q' - q);
    }
  }

  /** Consecutive years are as far apart as the earlier one is long. */
  lemma YearLength(y: int)
    ensures DayFromYear(y + 1) - DayFromYear(y) == DaysInYear(y)
  {
    var four := (y - 1968) / 4 - (y - 1969) / 4;
    var century := (y - 1900) / 100 - (y - 1901) / 100;
    var quad := (y - 1600) / 400 - (y - 1601) / 400;
    assert DayFromYear(y + 1) - DayFromYear(y) == 365 + four - century + quad by {
      assert y + 1 - 1969 == y - 1968 && y + 1 - 1901 == y - 1900 && y + 1 - 1601 == y - 1600;
    }
    FourYearTerm(y);
    CenturyTerm(y);
    QuadricentennialTerm(y);
    DivisibilityChain(y);
  }

  /** The month that `new Date(year, month, ...)` falls in: the year is read by
      MakeFullYear and an out-of-range month carries into the year (MakeDay). */
  function DateMonth(year: int, month: int): (r: YearMonth)
    ensures InRange(r)
    ensures 0 <= month < 12 ==> r == YearMonth(MakeFullYear(year), month)
  {
    YearMonth(MakeFullYear(year) + month / 12, month % 12)
  }

  /** `new Date(year, month, 1).getDay()`: the weekday of the first, the number of blank
      cells before it in a Sunday-first grid. */
  function FirstWeekday(year: int, month: int): (r: int)
    ensures 0 <= r < 7
  {
    var ym := DateMonth(year, month);
    WeekDay(DayNumber(ym.year, ym.month, 1))
  }

  /** `new Date(year, month + 1, 0).getDate()`: the last date of the month. */
  function LastDate(year: int, month: int): (r: int)
    ensures 28 <= r <= 31
    ensures r == 29 <==> DateMonth(year, month).month == 1 && IsLeapYear(DateMonth(year, month).year)
  {
    var ym := DateMonth(year, month);
    DaysInMonth(ym.year, ym.month)
  }

  /** Raising the month argument by one moves to the next calendar month. */
  lemma DateMonthSucc(year: int, month: int)
    ensures DateMonth(year, month + 1) == NextMonth(DateMonth(year, month))
  {
    var q, r := month / 12, month % 12;
    assert month == q * 12 + r;
    if r == 11 {
      assert month + 1 == (q + 1) * 12 + 0;
    } else {
      assert month + 1 == q * 12 + (r + 1);
    }
  }

  /** Day 0 of the following month, which `new Date(year, month + 1, 0)` denotes, is the
      day numbered `LastDate` in the month itself: the script's way of finding the month
      length and the month table agree. */
  lemma LastDateIsDayBeforeNextFirst(year: int, month: int)
    ensures var cur, next := DateMonth(year, month), DateMonth(year, month + 1);
      DayNumber(next.year, next.month, 0) == DayNumber(cur.year, cur.month, LastDate(year, month))
  {
    var cur := DateMonth(year, month);
    DateMonthSucc(year, month);
    MonthTableConsistent(cur.year, cur.month);
    if cur.month == 11 {
      YearLength(cur.year);
    }
  }

  /** The grid of the following month starts where this month's grid leaves off. */
  lemma FirstWeekdayOfNextMonth(year: int, month: int)
    ensures FirstWeekday(year, month + 1) == (FirstWeekday(year, month) + LastDate(year, month)) % 7
  {
    var cur, next := DateMonth(year, month), DateMonth(year, month + 1);
    LastDateIsDayBeforeNextFirst(year, month);
    var first, len := DayNumber(cur.year, cur.month, 1), LastDate(year, month);
    assert DayNumber(next.year, next.month, 1) == first + len;
    WeekDayAdvance(first, len);
  }

  /** Moving `n` days on moves the weekday `n` places round the week. */
  lemma WeekDayAdvance(day: int, n: int)
    ensures WeekDay(day + n) == (WeekDay(day) + n) % 7
  {
    assert (day + n + 4) % 7 == ((day + 4) % 7 + n) % 7;
  }

  /** February 2024 has 29 days and starts on a Thursday; 1900 was not a leap year and
      2000 was. */
  lemma LeapYearExamples()
    ensures LastDate(2024, 1) == 29 && FirstWeekday(2024, 1) == 4
    ensures LastDate(1900, 1) == 28 && LastDate(2000, 1) == 29
    ensures LastDate(2023, 1) == 28
  {
  }
}
