/** The script's globals and event handlers: the month the navigation works from, the
    selected day and the "I'm done!" button, the active child's star and score maps, the
    roster of two children, and the roulette. Page building is left out; `Render` yields
    the cells the grid would show. */
module Calendar {
  import opened Wrappers
  import opened Text
  import opened DateKey
  import opened Navigation
  import opened Gregorian
  import opened Ledger

  /** A roulette item: its title (the text before the first space of its caption) and the points its `data-score` awards. */
  datatype Prize = Prize(title: string, score: int)

  /** `selectedDate = { year, month, date }`, month zero-based. */
  datatype SelectedDate = SelectedDate(year: int, month: int, date: int)

  /** A grid cell: an empty slot before the first, or a numbered day with its key, its
      star and the score it shows. */
  datatype Cell = Blank | Day(date: int, key: string, star: bool, score: Option<int>)

  /** What `stopSpinning` re-renders after storing a score: the month read back from the
      bound key, a grid for NaN when the key does not parse, or nothing because
      `currentRouletteDate.split` throws a TypeError on `null`. */
  datatype Rerender = RenderMonth(year: int, month: int) | RenderNaN | ThrowsTypeError

  datatype StopOutcome =
    | NotSpinning
    | NothingHighlighted
    | Awarded(prize: Prize, key: string, rerender: Rerender)

  /** The day cell `renderCalendar` builds for `date`. */
  function DayCell(stars: map<string, bool>, scores: map<string, int>,
                   year: int, month: int, date: int): Cell
  {
    var key := MakeKey(year, month, date);
    Day(date, key, Starred(stars, key), ShownScore(stars, scores, key))
  }

  /** The property name under which `scores[currentRouletteDate] = score` stores:
      a `null` date is stored as `"null"`. */
  function BoundKey(date: Option<string>): string {
    match date
    case Some(key) => key
    case None => "null"
  }

  /** `const [year, month, date] = currentRouletteDate.split('-')` and
      `renderCalendar(parseInt(year), parseInt(month) - 1)`. */
  function RerenderAfterStop(date: Option<string>): Rerender {
    match date
    case None => ThrowsTypeError
    case Some(key) =>
      match ParseKey(key)
      case Some((year, month)) => RenderMonth(year, month)
      case None => RenderNaN
  }

  /** Stopping on a star of a year that is not negative re-renders the month of that star. */
  lemma RerenderShowsStarMonth(year: int, month: int, date: int)
    requires year >= 0 && 0 <= month < 12
    ensures RerenderAfterStop(Some(MakeKey(year, month, date))) == RenderMonth(year, month)
  {
    ParseMakeKey(year, month, date);
  }

  /** A score stored under `"null"` (closing the roulette mid-spin) shows on no day. */
  lemma NullScoreNeverShown(stars: map<string, bool>, scores: map<string, int>, points: int,
                            year: int, month: int, date: int)
    ensures DayCell(stars, scores["null" := points], year, month, date) ==
            DayCell(stars, scores, year, month, date)
  {
    KeyIsNeverNull(year, month, date);
  }

  /** `markDone`'s effect on the star map and the store, given the star ledger's key. */
  function MarkedDone(stars: map<string, bool>, store: Store, ledger: string, key: string):
    (r: (map<string, bool>, Store))
    ensures Starred(r.0, key) && ledger in r.1 && r.1[ledger] == Stars(r.0)
    ensures forall k :: k in stars && k != key ==> k in r.0 && r.0[k] == stars[k]
    ensures forall k :: k in store && k != ledger ==> k in r.1 && r.1[k] == store[k]
    ensures r.0.Keys == stars.Keys + {key} && r.1.Keys == store.Keys + {ledger}
  {
    var stars' := stars[key := true];
    (stars', store[ledger := Stars(stars')])
  }

  /** Marking the same day done twice leaves what marking it once leaves. */
  lemma MarkedDoneIdempotent(stars: map<string, bool>, store: Store, ledger: string, key: string)
    ensures var once := MarkedDone(stars, store, ledger, key);
      MarkedDone(once.0, once.1, ledger, key) == once
  {
    var once := MarkedDone(stars, store, ledger, key);
    assert once.0[key := true] == once.0;
    assert once.1[ledger := Stars(once.0)] == once.1;
  }

  /** Advancing an index modulo `n` after `t` steps is the index after `t + 1` steps. */
  lemma ModSucc(t: nat, n: nat)
    requires n > 0
    ensures (t % n + 1) % n == (t + 1) % n
  {
    var q, r := t / n, t % n;
    assert t == n * q + r;
    if r + 1 < n {
      DivModUnique(t + 1, n, q, r + 1);
      DivModUnique(r + 1, n, 0, r + 1);
    } else {
      assert t + 1 == n * (q + 1);
      DivModUnique(t + 1, n, q + 1, 0);
      DivModUnique(r + 1, n, 1, 0);
    }
  }

  class RewardCalendar {
    /** `localStorage`. */
    var store: Store

    /** `today`'s year: the year picker offers ten years either side of it. */
    const thisYear: int
    /** The month the navigation buttons and pickers work from; a re-render of another
        month (`markDone`, `stopSpinning`) does not change it. */
    var currentYear: int
    var currentMonth: int
    var selectedDate: Option<SelectedDate>
    /** Whether the "I'm done!" button is displayed. */
    var doneButtonShown: bool

    /** The active child's ledgers, as loaded by `switchChild` and updated in place. */
    var starDates: map<string, bool>
    var scores: map<string, int>

    var childNames: seq<string>
    var currentChildIdx: nat
    /** Whether each child's name input is displayed. */
    var editing: seq<bool>

    /** The roulette items, in document order. */
    const prizes: seq<Prize>
    var modalOpen: bool
    /** `isSpinning`; the interval handle exists exactly while it is true. */
    var isSpinning: bool
    /** `currentIndex` of the interval callback. */
    var spinIndex: nat
    /** The item carrying the `highlight` class, if any. */
    var highlighted: Option<nat>
    var currentRouletteDate: Option<string>
    /** The prize announced in the score display, if any. */
    var result: Option<Prize>
    /** Ticks since the spin started. */
    ghost var ticks: nat

    ghost predicate Valid()
      reads this
    {
      0 <= currentMonth < 12 &&
      (doneButtonShown ==> selectedDate.Some?) &&
      |childNames| == 2 && currentChildIdx < 2 && |editing| == 2 &&
      |prizes| > 0 && spinIndex < |prizes| &&
      (highlighted.Some? ==> highlighted.value < |prizes|) &&
      (isSpinning ==> spinIndex == ticks % |prizes|) &&
      (isSpinning && ticks > 0 && highlighted.Some? ==> highlighted.value == (ticks - 1) % |prizes|)
    }

    /** The script's top-level state on page load, before `DOMContentLoaded`. */
    constructor (saved: Store, today: YearMonth, items: seq<Prize>)
      requires InRange(today) && |items| > 0
      ensures Valid()
      ensures store == saved && thisYear == today.year
      ensures currentYear == today.year && currentMonth == today.month
      ensures selectedDate == None && !doneButtonShown
      ensures starDates == map[] && scores == map[]
      ensures childNames == DefaultNames && currentChildIdx == 0 && editing == [false, false]
      ensures prizes == items && !modalOpen && !isSpinning && highlighted == None
      ensures currentRouletteDate == None && result == None
    {
      store := saved;
      thisYear := today.year;
      currentYear, currentMonth := today.year, today.month;
      selectedDate, doneButtonShown := None, false;
      starDates, scores := map[], map[];
      childNames, currentChildIdx, editing := DefaultNames, 0, [false, false];
      prizes := items;
      modalOpen, isSpinning, spinIndex, highlighted := false, false, 0, None;
      currentRouletteDate, result := None, None;
      ticks := 0;
    }

    // ------------------------------------------------------------ roster

    /** `loadChildNames`: adopts a saved roster of exactly two names; `ok` is false when
        `JSON.parse` throws on the stored text. */
    method LoadChildNames() returns (ok: bool)
      requires Valid()
      modifies this`childNames
      ensures Valid()
      ensures ok <==> RosterParses(store)
      ensures ok && SavedRoster(store).Some? ==> childNames == SavedRoster(store).value
      ensures !ok || SavedRoster(store).None? ==> childNames == old(childNames)
    {
      if !RosterParses(store) {
        return false;
      }
      var saved := SavedRoster(store);
      if saved.Some? {
        childNames := saved.value;
      }
      ok := true;
    }

    /** `saveChildNames`. */
    method SaveChildNames()
      requires Valid()
      modifies this`store
      ensures Valid()
      ensures store == old(store)[RosterKey := Names(childNames)]
    {
      store := store[RosterKey := Names(childNames)];
    }

    /** `switchChild`: makes `idx` active and reloads its ledgers from the store; `ok` is
        false when `JSON.parse` throws, after the maps read so far are already replaced. */
    method SwitchChild(idx: nat) returns (ok: bool)
      requires Valid() && idx < 2
      modifies this`currentChildIdx, this`starDates, this`scores
      ensures Valid() && currentChildIdx == idx
      ensures var stars, points := LoadStars(store, StarKey(childNames[idx])),
                                   LoadScores(store, ScoreKey(childNames[idx]));
        ok == (stars.Some? && points.Some?) &&
        starDates == (if stars.Some? then stars.value else old(starDates)) &&
        scores == (if ok then points.value else old(scores))
    {
      currentChildIdx := idx;
      var stars := LoadStars(store, StarKey(childNames[idx]));
      if stars.None? {
        return false;
      }
      starDates := stars.value;
      var points := LoadScores(store, ScoreKey(childNames[idx]));
      if points.None? {
        return false;
      }
      scores := points.value;
      ok := true;
    }

    /** `handleChildBtnClick`: ignored while that child's name input is open. */
    method ChildButtonClicked(idx: nat) returns (ok: bool)
      requires Valid() && idx < 2
      modifies this`currentChildIdx, this`starDates, this`scores
      ensures Valid()
      ensures editing[idx] ==> ok && unchanged(this)
      ensures !editing[idx] ==> currentChildIdx == idx
      ensures !editing[idx] ==>
        var stars, points := LoadStars(store, StarKey(childNames[idx])),
                             LoadScores(store, ScoreKey(childNames[idx]));
        ok == (stars.Some? && points.Some?) &&
        starDates == (if stars.Some? then stars.value else old(starDates)) &&
        scores == (if ok then points.value else old(scores))
    {
      if editing[idx] {
        return true;
      }
      ok := SwitchChild(idx);
    }

    /** `handleChildBtnDblClick`: opens that child's name input. */
    method ChildButtonDoubleClicked(idx: nat)
      requires Valid() && idx < 2
      modifies this`editing
      ensures Valid() && editing == old(editing)[idx := true]
    {
      editing := editing[idx := true];
    }

    /** `handleChildInputBlur`: stores the trimmed name (or the slot's default), persists
        and reloads the roster, closes the input and reloads the active child's ledgers,
        now looked up under the current names. Nothing stored under the old name moves. */
    method ChildInputBlurred(idx: nat, typed: string) returns (ok: bool)
      requires Valid() && idx < 2
      modifies this`childNames, this`store, this`editing, this`currentChildIdx, this`starDates, this`scores
      ensures Valid()
      ensures childNames == old(childNames)[idx := RenamedTo(idx, typed)]
      ensures store == old(store)[RosterKey := Names(childNames)]
      ensures editing == old(editing)[idx := false] && currentChildIdx == old(currentChildIdx)
      ensures var name := childNames[currentChildIdx];
        var stars, points := LoadStars(store, StarKey(name)), LoadScores(store, ScoreKey(name));
        ok == (stars.Some? && points.Some?) &&
        starDates == (if stars.Some? then stars.value else old(starDates)) &&
        scores == (if ok then points.value else old(scores))
    {
      var name := RenamedTo(idx, typed);
      childNames := childNames[idx := name];
      SaveChildNames();
      assert SavedRoster(store) == Some(childNames);
      ghost var renamed := childNames;
      // loadChildNames() reads back the roster just saved
      var reloaded := LoadChildNames();
      assert childNames == renamed;
      editing := editing[idx := false];
      ok := SwitchChild(currentChildIdx);
    }

    /** The `DOMContentLoaded` start-up: `loadChildNames()` then `switchChild(0)`; when
        `loadChildNames` throws, nothing after it runs. */
    method Boot() returns (ok: bool)
      requires Valid()
      modifies this`childNames, this`currentChildIdx, this`starDates, this`scores
      ensures Valid()
      ensures !RosterParses(store) ==> !ok && unchanged(this)
      ensures RosterParses(store) ==>
        currentChildIdx == 0 &&
        childNames == (if SavedRoster(store).Some? then SavedRoster(store).value else old(childNames)) &&
        var stars, points := LoadStars(store, StarKey(childNames[0])),
                             LoadScores(store, ScoreKey(childNames[0]));
        ok == (stars.Some? && points.Some?) &&
        starDates == (if stars.Some? then stars.value else old(starDates)) &&
        scores == (if ok then points.value else old(scores))
    {
      ok := LoadChildNames();
      if !ok {
        return;
      }
      ok := SwitchChild(0);
    }

    // ------------------------------------------------------------ calendar

    /** The cells `renderCalendar(year, month)` puts under the day names: as many blanks
        as the weekday of the first, then the days 1 to the last date of the month, each
        with its key, its star and its score. */
    method Render(year: int, month: int) returns (cells: seq<Cell>)
      ensures |cells| == FirstWeekday(year, month) + LastDate(year, month)
      ensures forall i :: 0 <= i < FirstWeekday(year, month) ==> cells[i] == Blank
      ensures forall d :: 1 <= d <= LastDate(year, month) ==>
        cells[FirstWeekday(year, month) + d - 1] == DayCell(starDates, scores, year, month, d)
    {
      var firstDay := FirstWeekday(year, month);
      var lastDate := LastDate(year, month);
      cells := [];
      var i := 0;
      while i < firstDay
        invariant 0 <= i <= firstDay && |cells| == i
        invariant forall j :: 0 <= j < i ==> cells[j] == Blank
      {
        cells := cells + [Blank];
        i := i + 1;
      }
      var date := 1;
      while date <= lastDate
        invariant 1 <= date <= lastDate + 1 && |cells| == firstDay + date - 1
        invariant forall j :: 0 <= j < firstDay ==> cells[j] == Blank
        invariant forall d :: 1 <= d < date ==> cells[firstDay + d - 1] == DayCell(starDates, scores, year, month, d)
      {
        cells := cells + [DayCell(starDates, scores, year, month, date)];
        date := date + 1;
      }
    }

    /** `selectDate`: remembers the clicked day and shows the "I'm done!" button. */
    method SelectDate(year: int, month: int, date: int)
      requires Valid()
      modifies this`selectedDate, this`doneButtonShown
      ensures Valid()
      ensures selectedDate == Some(SelectedDate(year, month, date)) && doneButtonShown
    {
      selectedDate := Some(SelectedDate(year, month, date));
      doneButtonShown := true;
    }

    /** `markDone`: nothing without a selection; otherwise stars the selected day in the
        active child's map, persists the whole map and hides the button. The selection
        itself stays. `rerender` is the month `renderCalendar` then draws: the selected
        day's month, which need not be `(currentYear, currentMonth)`, and which that
        call does not store there. */
    method MarkDone() returns (rerender: Option<YearMonth>)
      requires Valid()
      modifies this`starDates, this`store, this`doneButtonShown
      ensures Valid()
      ensures selectedDate.None? ==> rerender == None && unchanged(this)
      ensures selectedDate.Some? ==>
        var day := selectedDate.value;
        rerender == Some(YearMonth(day.year, day.month)) &&
        (starDates, store) == MarkedDone(old(starDates), old(store), StarKey(childNames[currentChildIdx]),
                                         MakeKey(day.year, day.month, day.date)) &&
        !doneButtonShown
      ensures selectedDate == old(selectedDate)
    {
      if selectedDate.None? {
        return None;
      }
      var day := selectedDate.value;
      var key := MakeKey(day.year, day.month, day.date);
      starDates := starDates[key := true];
      store := store[StarKey(childNames[currentChildIdx]) := Stars(starDates)];
      doneButtonShown := false;
      rerender := Some(YearMonth(day.year, day.month));
    }

    /** The click handler on the calendar container: a click off a day hides the button
        and keeps the selection. */
    method ClickedOutsideDay()
      requires Valid()
      modifies this`doneButtonShown
      ensures Valid() && !doneButtonShown
    {
      doneButtonShown := false;
    }

    /** The previous-month button. */
    method PrevMonthClicked()
      requires Valid()
      modifies this`currentYear, this`currentMonth
      ensures Valid()
      ensures YearMonth(currentYear, currentMonth) == PrevMonth(YearMonth(old(currentYear), old(currentMonth)))
    {
      currentMonth := currentMonth - 1;
      if currentMonth < 0 {
        currentMonth := 11;
        currentYear := currentYear - 1;
      }
    }

    /** The next-month button. */
    method NextMonthClicked()
      requires Valid()
      modifies this`currentYear, this`currentMonth
      ensures Valid()
      ensures YearMonth(currentYear, currentMonth) == NextMonth(YearMonth(old(currentYear), old(currentMonth)))
    {
      currentMonth := currentMonth + 1;
      if currentMonth > 11 {
        currentMonth := 0;
        currentYear := currentYear + 1;
      }
    }

    /** The year picker, whose options run from ten years before `today` to ten after. */
    method YearPicked(year: int)
      requires Valid() && thisYear - 10 <= year <= thisYear + 10
      modifies this`currentYear
      ensures Valid() && currentYear == year
    {
      currentYear := year;
    }

    /** The month picker, whose options are the months 0 to 11. */
    method MonthPicked(month: int)
      requires Valid() && 0 <= month < 12
      modifies this`currentMonth
      ensures Valid() && currentMonth == month
    {
      currentMonth := month;
    }

    // ------------------------------------------------------------ roulette

    /** `openRoulette`: binds the roulette to a day's key, clears the result and every
        highlight. A running spin is left running. */
    method OpenRoulette(key: string)
      requires Valid()
      modifies this`currentRouletteDate, this`modalOpen, this`result, this`highlighted
      ensures Valid()
      ensures currentRouletteDate == Some(key) && modalOpen && result == None && highlighted == None
    {
      currentRouletteDate := Some(key);
      modalOpen := true;
      result := None;
      highlighted := None;
    }

    /** `startSpinning`: nothing while spinning; otherwise starts the interval with its
        index at 0 and clears the result. The previous highlight stays until the first tick. */
    method StartSpinning()
      requires Valid()
      modifies this`isSpinning, this`result, this`spinIndex, this`ticks
      ensures Valid()
      ensures old(isSpinning) ==> unchanged(this)
      ensures !old(isSpinning) ==> isSpinning && result == None && spinIndex == 0 && ticks == 0
    {
      if isSpinning {
        return;
      }
      isSpinning := true;
      result := None;
      spinIndex := 0;
      ticks := 0;
    }

    /** One run of the 200 ms interval callback: highlights exactly the item at the index
        and advances the index round the items. No interval runs when not spinning. */
    method Tick()
      requires Valid()
      modifies this`highlighted, this`spinIndex, this`ticks
      ensures Valid()
      ensures !old(isSpinning) ==> unchanged(this)
      ensures old(isSpinning) ==>
        highlighted == Some(old(spinIndex)) && spinIndex == (old(spinIndex) + 1) % |prizes| &&
        ticks == old(ticks) + 1
    {
      if !isSpinning {
        return;
      }
      ModSucc(ticks, |prizes|);
      highlighted := Some(spinIndex);
      spinIndex := (spinIndex + 1) % |prizes|;
      ticks := ticks + 1;
    }

    /** `stopSpinning`: nothing when not spinning; otherwise stops, and when an item is
        highlighted stores its score under the bound key (overwriting), persists the
        score map, announces the prize and re-renders the key's month. */
    method StopSpinning() returns (outcome: StopOutcome)
      requires Valid()
      modifies this`isSpinning, this`scores, this`store, this`result
      ensures Valid()
      ensures !old(isSpinning) ==> outcome == NotSpinning && unchanged(this)
      ensures old(isSpinning) ==> !isSpinning
      ensures old(isSpinning) && highlighted.None? ==>
        outcome == NothingHighlighted && scores == old(scores) && store == old(store) && result == old(result)
      ensures old(isSpinning) && highlighted.Some? ==>
        var prize, key := prizes[highlighted.value], BoundKey(currentRouletteDate);
        outcome == Awarded(prize, key, RerenderAfterStop(currentRouletteDate)) &&
        scores == old(scores)[key := prize.score] &&
        store == old(store)[ScoreKey(childNames[currentChildIdx]) := Scores(scores)] &&
        result == Some(prize)
      ensures old(isSpinning) && old(ticks) > 0 && outcome.Awarded? ==>
        outcome.prize == prizes[(ticks - 1) % |prizes|]
    {
      if !isSpinning {
        return NotSpinning;
      }
      isSpinning := false;
      if highlighted.None? {
        return NothingHighlighted;
      }
      var prize := prizes[highlighted.value];
      var key := BoundKey(currentRouletteDate);
      scores := scores[key := prize.score];
      store := store[ScoreKey(childNames[currentChildIdx]) := Scores(scores)];
      result := Some(prize);
      outcome := Awarded(prize, key, RerenderAfterStop(currentRouletteDate));
    }

    /** `closeRoulette`: hides the modal and unbinds the date BEFORE stopping, so a spin
        closed with an item highlighted stores its score under `"null"` and then throws. */
    method CloseRoulette() returns (outcome: StopOutcome)
      requires Valid()
      modifies this`modalOpen, this`currentRouletteDate, this`isSpinning, this`scores, this`store, this`result
      ensures Valid()
      ensures !modalOpen && currentRouletteDate == None && !isSpinning
      ensures !old(isSpinning) || highlighted.None? ==>
        scores == old(scores) && store == old(store) && result == old(result)
      ensures !old(isSpinning) ==> outcome == NotSpinning
      ensures old(isSpinning) && highlighted.None? ==> outcome == NothingHighlighted
      ensures old(isSpinning) && highlighted.Some? ==>
        var prize := prizes[highlighted.value];
        outcome == Awarded(prize, "null", ThrowsTypeError) &&
        scores == old(scores)["null" := prize.score] &&
        store == old(store)[ScoreKey(childNames[currentChildIdx]) := Scores(scores)] &&
        result == Some(prize)
    {
      modalOpen := false;
      currentRouletteDate := None;
      outcome := StopSpinning();
    }
  }
}
