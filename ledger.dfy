/** What the calendar keeps in `localStorage`: the roster of the two children under
    `childNames`, and per child a star map under `starDates_<name>` and a score map under
    `rouletteScores_<name>`. The store is a map from keys to the values `JSON.parse` would
    read back; text that does not parse is `Malformed`. */
module Ledger {
  import opened Wrappers
  import opened Text

  datatype Value =
    | Names(names: seq<string>)
    | Stars(stars: map<string, bool>)
    | Scores(scores: map<string, int>)
    | Malformed

  type Store = map<string, Value>

  const RosterKey: string := "childNames"

  /** `['아이1', '아이2']`: the names a slot falls back to. */
  const DefaultNames: seq<string> := ["\U{C544}\U{C774}1", "\U{C544}\U{C774}2"]

  /** `getChildStarKey`: the star ledger of a child is found by the child's name. */
  function StarKey(name: string): (k: string)
    ensures |k| == 10 + |name| && k[10..] == name
  {
    "starDates_" + name
  }

  /** `getChildScoreKey`: the score ledger of a child is found by the child's name. */
  function ScoreKey(name: string): (k: string)
    ensures |k| == 15 + |name| && k[15..] == name
  {
    "rouletteScores_" + name
  }

  /** The roster, a star ledger and a score ledger never share a key. */
  lemma LedgerKeysDisjoint(a: string, b: string)
    ensures StarKey(a) != ScoreKey(b)
    ensures StarKey(a) != RosterKey && ScoreKey(b) != RosterKey
  {
    assert StarKey(a)[0] == 's' && ScoreKey(b)[0] == 'r' && RosterKey[0] == 'c';
  }

  /** Ledger keys follow names: two children share a ledger exactly when their names are
      equal, and a renamed child is looked up under a different key from then on. */
  lemma LedgerKeysFollowNames(a: string, b: string)
    ensures StarKey(a) == StarKey(b) <==> a == b
    ensures ScoreKey(a) == ScoreKey(b) <==> a == b
  {
  }

  /** Two children with different names keep separate ledgers: writing one child's star
      or score map leaves what the other child's ledgers read back unchanged. */
  lemma OtherChildLedgersUntouched(store: Store, a: string, b: string,
                                   stars: map<string, bool>, scores: map<string, int>)
    requires a != b
    ensures LoadStars(store[StarKey(b) := Stars(stars)], StarKey(a)) == LoadStars(store, StarKey(a))
    ensures LoadScores(store[StarKey(b) := Stars(stars)], ScoreKey(a)) == LoadScores(store, ScoreKey(a))
    ensures LoadStars(store[ScoreKey(b) := Scores(scores)], StarKey(a)) == LoadStars(store, StarKey(a))
    ensures LoadScores(store[ScoreKey(b) := Scores(scores)], ScoreKey(a)) == LoadScores(store, ScoreKey(a))
  {
    LedgerKeysFollowNames(a, b);
    LedgerKeysDisjoint(a, b);
    LedgerKeysDisjoint(b, a);
  }

  /** `JSON.parse(localStorage.getItem('childNames') || 'null')` and the test
      `saved && Array.isArray(saved) && saved.length === 2`: the saved roster when one
      of exactly two names is stored, `None` when none is (the current names stay). */
  function SavedRoster(store: Store): (r: Option<seq<string>>)
    ensures r.Some? ==> |r.value| == 2
    ensures r.Some? ==> RosterKey in store && store[RosterKey] == Names(r.value)
    ensures r.None? ==> RosterKey !in store || !store[RosterKey].Names? || |store[RosterKey].names| != 2
  {
    if RosterKey in store && store[RosterKey].Names? && |store[RosterKey].names| == 2
    then Some(store[RosterKey].names)
    else None
  }

  /** `JSON.parse` on the stored roster throws only on text that is not JSON. */
  predicate RosterParses(store: Store) {
    !(RosterKey in store && store[RosterKey].Malformed?)
  }

  /** `JSON.parse(localStorage.getItem(key) || '{}')` for a star map: empty when nothing is
      stored, `None` when `JSON.parse` throws. */
  function LoadStars(store: Store, key: string): (r: Option<map<string, bool>>)
    ensures key !in store ==> r == Some(map[])
    ensures key in store && store[key].Stars? ==> r == Some(store[key].stars)
    ensures key in store && !store[key].Stars? ==> r.None?
  {
    if key !in store then Some(map[])
    else if store[key].Stars? then Some(store[key].stars)
    else None
  }

  /** The same for a score map. */
  function LoadScores(store: Store, key: string): (r: Option<map<string, int>>)
    ensures key !in store ==> r == Some(map[])
    ensures key in store && store[key].Scores? ==> r == Some(store[key].scores)
    ensures key in store && !store[key].Scores? ==> r.None?
  {
    if key !in store then Some(map[])
    else if store[key].Scores? then Some(store[key].scores)
    else None
  }

  /** What is persisted is what is read back. */
  lemma PersistRoundTrip(store: Store, names: seq<string>, stars: map<string, bool>,
                         scores: map<string, int>, starKey: string, scoreKey: string)
    requires |names| == 2 && starKey != scoreKey
    requires starKey != RosterKey && scoreKey != RosterKey
    ensures var s := store[RosterKey := Names(names)][starKey := Stars(stars)][scoreKey := Scores(scores)];
      SavedRoster(s) == Some(names) && LoadStars(s, starKey) == Some(stars) &&
      LoadScores(s, scoreKey) == Some(scores)
  {
  }

  /** `starDates[key]` is truthy. */
  predicate Starred(stars: map<string, bool>, key: string) {
    key in stars && stars[key]
  }

  /** The score a day cell shows: only on a starred day, and only a truthy (non-zero)
      score; an orphan score without a star, or a score of 0, is never shown. */
  function ShownScore(stars: map<string, bool>, scores: map<string, int>, key: string): (r: Option<int>)
    ensures r.Some? <==> Starred(stars, key) && key in scores && scores[key] != 0
    ensures r.Some? ==> r.value == scores[key] && r.value != 0
  {
    if Starred(stars, key) && key in scores && scores[key] != 0 then Some(scores[key]) else None
  }

  /** Neither default name is blank or padded. */
  lemma DefaultNamesTrimmed(idx: nat)
    requires idx < 2
    ensures DefaultNames[idx] != []
    ensures !IsJsWhitespace(DefaultNames[idx][0]) && !IsJsWhitespace(DefaultNames[idx][|DefaultNames[idx]| - 1])
  {
    assert DefaultNames[idx][0] == '\U{C544}';
    assert DefaultNames[idx][2] == if idx == 0 then '1' else '2';
  }

  /** `handleChildInputBlur`'s new name: `input.value.trim()`, or the slot's default
      name when that is empty. */
  function RenamedTo(idx: nat, typed: string): (r: string)
    requires idx < 2
    ensures r != []
  {
    var val := Trim(typed);
    if val == [] then DefaultNames[idx] else val
  }

  /** A new name is the typed text without surrounding whitespace, and the slot's default
      exactly when nothing but whitespace was typed; either way it is neither blank nor
      padded. */
  lemma RenamedToIsTrimmed(idx: nat, typed: string)
    requires idx < 2
    ensures var r := RenamedTo(idx, typed);
      !IsJsWhitespace(r[0]) && !IsJsWhitespace(r[|r| - 1]) &&
      (AllWhitespace(typed) ==> r == DefaultNames[idx]) &&
      (!AllWhitespace(typed) ==> r == Trim(typed))
  {
    TrimEmptyIffBlank(typed);
    TrimEnds(typed);
    DefaultNamesTrimmed(idx);
  }
}
