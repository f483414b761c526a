/** The previous-month and next-month buttons of the calendar header. */
module Navigation {
  /** A displayed month: a year and a zero-based month. */
  datatype YearMonth = YearMonth(year: int, month: int)

  predicate InRange(ym: YearMonth) {
    0 <= ym.month < 12
  }

  /** `currentMonth--`, wrapping below 0 to December of the year before. */
  function PrevMonth(ym: YearMonth): (r: YearMonth)
    ensures InRange(ym) ==> InRange(r)
    ensures InRange(ym) ==> (r.year == ym.year - 1 <==> ym.month == 0)
    ensures InRange(ym) ==> (r.year == ym.year <==> ym.month != 0)
  {
    if ym.month - 1 < 0 then YearMonth(ym.year - 1, 11) else YearMonth(ym.year, ym.month - 1)
  }

  /** `currentMonth++`, wrapping above 11 to January of the year after. */
  function NextMonth(ym: YearMonth): (r: YearMonth)
    ensures InRange(ym) ==> InRange(r)
    ensures InRange(ym) ==> (r.year == ym.year + 1 <==> ym.month == 11)
    ensures InRange(ym) ==> (r.year == ym.year <==> ym.month != 11)
  {
    if ym.month + 1 > 11 then YearMonth(ym.year + 1, 0) else YearMonth(ym.year, ym.month + 1)
  }

  /** Months counted from January of year 0: an independent account of the calendar order. */
  function MonthIndex(ym: YearMonth): int {
    ym.year * 12 + ym.month
  }

  function FromMonthIndex(i: int): (r: YearMonth)
    ensures InRange(r)
  {
    YearMonth(i / 12, i % 12)
  }

  /** "Next" is the month that follows in the calendar order. */
  lemma NextIsSuccessor(ym: YearMonth)
    requires InRange(ym)
    ensures NextMonth(ym) == FromMonthIndex(MonthIndex(ym) + 1)
  {
    var i := MonthIndex(ym) + 1;
    if ym.month == 11 {
      assert i == (ym.year + 1) * 12;
    } else {
      assert i == ym.year * 12 + (ym.month + 1);
    }
  }

  /** "Previous" is the month that precedes in the calendar order. */
  lemma PrevIsPredecessor(ym: YearMonth)
    requires InRange(ym)
    ensures PrevMonth(ym) == FromMonthIndex(MonthIndex(ym) - 1)
  {
    var i := MonthIndex(ym) - 1;
    if ym.month == 0 {
      assert i == (ym.year - 1) * 12 + 11;
    } else {
      assert i == ym.year * 12 + (ym.month - 1);
    }
  }

  /** The two buttons undo each other. */
  lemma NextUndoesPrev(ym: YearMonth)
    requires InRange(ym)
    ensures NextMonth(PrevMonth(ym)) == ym && PrevMonth(NextMonth(ym)) == ym
  {
  }
}
