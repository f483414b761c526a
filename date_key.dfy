/** Date keys: the text `${year}-${month+1}-${date}` under which a day's star and score
    are stored, and the way the roulette reads the year and month back out of one. */
module DateKey {
  import opened Wrappers
  import opened Text

  /** The key of a day; `month` is zero-based, as in the script, and is written one-based. */
  function MakeKey(year: int, month: int, date: int): string {
    IntToString(year) + "-" + IntToString(month + 1) + "-" + IntToString(date)
  }

  /** `const [year, month, date] = key.split('-')` followed by `parseInt(year)` and
      `parseInt(month) - 1`: the year and zero-based month of a key, or `None` when
      either `parseInt` gives NaN (a missing piece is `undefined`, which is NaN too). */
  function ParseKey(key: string): Option<(int, int)> {
    var pieces := Split(key, '-');
    var year := ParseInt(pieces[0]);
    var month := if |pieces| > 1 then ParseInt(pieces[1]) else None;
    if year.Some? && month.Some? then Some((year.value, month.value - 1)) else None
  }

  /** A key whose year is not negative has exactly the three pieces it was built from. */
  lemma KeyPieces(year: int, month: int, date: int)
    requires year >= 0 && month >= 0 && date >= 0
    ensures Split(MakeKey(year, month, date), '-') ==
      [IntToString(year), IntToString(month + 1), IntToString(date)]
  {
    var y, m, d := IntToString(year), IntToString(month + 1), IntToString(date);
    assert '-' !in y && '-' !in m && '-' !in d;
    assert MakeKey(year, month, date) == y + ['-'] + (m + ['-'] + d);
    SplitAtFirst(y, '-', m + ['-'] + d);
    SplitAtFirst(m, '-', d);
  }

  /** Round trip: for a year that is not negative, reading a key back gives the year and
      the zero-based month it was written from. */
  lemma ParseMakeKey(year: int, month: int, date: int)
    requires year >= 0 && month >= 0
    ensures ParseKey(MakeKey(year, month, date)) == Some((year, month))
  {
    LeadingPieces(year, month, date);
    ParseIntOfIntToString(year);
    ParseIntOfIntToString(month + 1);
  }

  /** The first two pieces of a key whose year is not negative are its year and month. */
  lemma LeadingPieces(year: int, month: int, date: int)
    requires year >= 0 && month >= 0
    ensures var pieces := Split(MakeKey(year, month, date), '-');
      |pieces| > 1 && pieces[0] == IntToString(year) && pieces[1] == IntToString(month + 1)
  {
    var y, m, rest := IntToString(year), IntToString(month + 1), IntToString(date);
    assert '-' !in y && '-' !in m;
    assert MakeKey(year, month, date) == y + ['-'] + (m + ['-'] + rest);
    SplitAtFirst(y, '-', m + ['-'] + rest);
    SplitAtFirst(m, '-', rest);
  }

  /** A key of a negative year starts with the separator, so its first piece is empty
      and the year reads as NaN: the round trip fails for every negative year. */
  lemma ParseKeyOfNegativeYear(year: int, month: int, date: int)
    requires year < 0
    ensures ParseKey(MakeKey(year, month, date)) == None
  {
    var key := MakeKey(year, month, date);
    assert key == [] + ['-'] + key[1..];
    SplitAtFirst([], '-', key[1..]);
    ParseIntOfEmpty();
  }

  /** Days whose year, month and date are not negative get distinct keys. */
  lemma MakeKeyInjective(y1: int, m1: int, d1: int, y2: int, m2: int, d2: int)
    requires y1 >= 0 && m1 >= 0 && d1 >= 0 && y2 >= 0 && m2 >= 0 && d2 >= 0
    requires MakeKey(y1, m1, d1) == MakeKey(y2, m2, d2)
    ensures y1 == y2 && m1 == m2 && d1 == d2
  {
    KeyPieces(y1, m1, d1);
    KeyPieces(y2, m2, d2);
    IntToStringInjective(y1, y2);
    IntToStringInjective(m1 + 1, m2 + 1);
    IntToStringInjective(d1, d2);
  }

  /** No date key is the text `"null"`, the property name JavaScript uses for a `null` key. */
  lemma KeyIsNeverNull(year: int, month: int, date: int)
    ensures MakeKey(year, month, date) != "null"
  {
    var y := IntToString(year);
    assert MakeKey(year, month, date)[|y|] == '-';
  }

  /** The leap day of 2024 is stored under `2024-2-29`: no leading zero pads the month. */
  lemma LeapDayKey()
    ensures MakeKey(2024, 1, 29) == "2024-2-29"
  {
    assert NatToString(2) == "2";
    assert NatToString(20) == "20";
    assert NatToString(202) == "202";
    assert NatToString(2024) == "2024";
    assert NatToString(29) == "29";
  }
}
