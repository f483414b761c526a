# Reward calendar, modelled in Dafny

A browser script keeps a reward calendar for two children. Each child has two ledgers:

- a star map from date keys (`2024-2-29`) to `true`;
- a score map from date keys to the points a prize roulette awarded.

Both ledgers live in `localStorage`, under keys derived from the child's name. The user
works the calendar like this:

- navigate by month;
- select a day and press "I'm done!" to star it;
- tap a star to open the roulette;
- spin the roulette, then stop it to record the highlighted prize's score for that day.

The model covers the state machine under the page:

| file | module | what it models |
|---|---|---|
| `calendar.dfy` | `Calendar` | One class, `RewardCalendar`. Its fields are the script's globals, and its methods are the event handlers that update those globals in place. It also holds the pure facts about a day cell, about `markDone` and about the roulette's re-render. |
| `date_key.dfy` | `DateKey` | The date key template `${year}-${month+1}-${date}`, and how the roulette reads a year and month back out of a key. |
| `gregorian.dfy` | `Gregorian` | The proleptic Gregorian arithmetic that ECMA-262 (section 21.4.1) prescribes for `Date`. This stands in for `new Date(y, m, 1).getDay()` and `new Date(y, m + 1, 0).getDate()`. |
| `navigation.dfy` | `Navigation` | The previous-month and next-month arithmetic. |
| `ledger.dfy` | `Ledger` | The store and its keys: the roster, the per-child ledgers, cell decoration and renaming. |
| `text.dfy` | `Text` | The JavaScript string primitives the script relies on: `trim`, `split` on one character, printing an integer, and `parseInt` in base 10. |
| `wrappers.dfy` | `Wrappers` | `Option`. |

The timer is not a clock in this model. Each run of the 200 ms interval callback is an
explicit call to `Tick`. A ghost counter of ticks ties the highlight to the number of
ticks since the spin started. A `JSON.parse` that throws becomes `ok == false` on the
handler that called it.

The model follows the code, including where it behaves surprisingly:

- `markDone` keeps `selectedDate` (script.js:236-243). It hides the button but does not
  clear the selection.
- `markDone` and `stopSpinning` re-render the month of the selected day or of the bound
  key (script.js:241, 317) without storing it in `currentYear`/`currentMonth`. The grid
  shown and the month that the navigation works from can then differ. `MarkDone` returns
  the month it re-renders, as `StopSpinning` does.
- A failed `JSON.parse` of a stored roster or ledger is not recovered from.
  script.js:34, 53 and 59 do not catch it, so the handler stops at that point. The
  model reports this through the `ok` results.
- `closeRoulette` clears `currentRouletteDate` before it calls `stopSpinning`
  (script.js:262-267). If the roulette is closed mid-spin with an item highlighted, that
  item's score is still recorded and persisted, under the property name `"null"`. Then
  `currentRouletteDate.split` throws a TypeError (`StopOutcome.Awarded(_, "null",
  ThrowsTypeError)`). No day ever shows that score (`NullScoreNeverShown`).

## Model

| member | source | states |
|---|---|---|
| `DateKey.ParseMakeKey` | script.js:316-317 | Reading back a key written at script.js:171 and :238 gives exactly the year and the zero-based month it was written from, for every year that is not negative. |
| `DateKey.LeadingPieces` | script.js:316 | The first two pieces of `key.split('-')` are the printed year and the printed one-based month. |
| `DateKey.KeyPieces` | script.js:171 | A key of a non-negative day splits into exactly the three printed numbers it was built from. |
| `DateKey.ParseKeyOfNegativeYear` | script.js:316-317 | For a negative year the key starts with `-`, so the year piece is empty and parses as NaN: the round trip fails. |
| `DateKey.MakeKeyInjective` | script.js:171 | Distinct days (non-negative year, month and date) get distinct keys, so no two days share a star or a score. |
| `DateKey.LeapDayKey` | script.js:171 | The leap day of 2024 is stored under exactly `2024-2-29`, with the month one-based and unpadded. |
| `DateKey.KeyIsNeverNull` | script.js:308 | No date key is `"null"`, the name under which a score is stored when the bound date is `null`. |
| `Text.TrimStart` | script.js:96 | Drops a prefix of whitespace only, and the rest starts with no whitespace. |
| `Text.TrimEnd` | script.js:96 | Drops a suffix of whitespace only, and the rest ends with no whitespace. |
| `Text.TrimIsSlice` | script.js:96 | `trim` returns a contiguous slice of its input. |
| `Text.TrimDropsBlanks` | script.js:96 | Everything `trim` drops, before and after the slice, is ECMA-262 whitespace or a line terminator. |
| `Text.TrimEnds` | script.js:96 | A non-empty trimmed string neither starts nor ends with whitespace. |
| `Text.TrimEmptyIffBlank` | script.js:96-97 | `trim` gives `""`, the falsy value that triggers the default name, exactly when the input is all whitespace. |
| `Text.TrimIdempotent` | script.js:96 | Trimming twice is trimming once. |
| `Text.IndexOf` | script.js:316 | The first occurrence of the separator: the character there is the separator, and none comes before it. |
| `Text.Split` | script.js:316 | `split('-')` gives at least one piece, and no piece contains the separator. |
| `Text.SplitJoin` | script.js:316 | Joining the pieces of `split` with the separator gives the original string back, so the pieces are exactly the text between separators. |
| `Text.SplitAtFirst` | script.js:316 | Splitting `a + '-' + b`, where `a` has no `-`, gives `a` followed by the pieces of `b`. |
| `Text.NatToString` | script.js:171 | A natural number prints as a non-empty run of decimal digits with no leading zero, as `String(n)` writes it. |
| `Text.IntToString` | script.js:171 | An integer prints as non-empty text that starts with `-` exactly when the integer is negative. After the sign comes a non-empty run of decimal digits with no leading zero. |
| `Text.DigitRun` | script.js:317 | The run `parseInt` reads is all digits and maximal. |
| `Text.DigitsValueOfNatToString` | script.js:171 | The digits that print a natural number have that number as their value. |
| `Text.ParseIntOfIntToString` | script.js:317 | `parseInt` gives back every integer a template literal printed. |
| `Text.IntToStringInjective` | script.js:171 | Two integers print the same exactly when they are equal. |
| `Text.ParseIntOfEmpty` | script.js:317 | `parseInt("")` is NaN. |
| `Navigation.PrevMonth` | script.js:341-348 | From a month in 0..11 the result is in 0..11. The year drops by one exactly when wrapping from January to December, and otherwise stays. |
| `Navigation.NextMonth` | script.js:349-356 | From a month in 0..11 the result is in 0..11. The year rises by one exactly when wrapping from December to January, and otherwise stays. |
| `Navigation.NextIsSuccessor` | script.js:349-356 | "Next" is the successor in an independent count of months since year 0. |
| `Navigation.PrevIsPredecessor` | script.js:341-348 | "Previous" is the predecessor in that count. |
| `Navigation.NextUndoesPrev` | script.js:341-356 | next after prev, and prev after next, are the identity on every month in range. |
| `Gregorian.MakeFullYear` | script.js:158 | The `Date` constructor reads a year 0..99 as 1900..1999 and every other year as given. |
| `Gregorian.DaysInYear` | script.js:159 | A year has 365 or 366 days, 366 exactly in a Gregorian leap year. |
| `Gregorian.DaysInMonth` | script.js:159 | A month has 28..31 days. It has 29 exactly for February of a leap year, at most 29 for any February, and at least 30 for every other month. |
| `Gregorian.MonthTableConsistent` | script.js:159 | The cumulative month table agrees with the month lengths and closes on the year's length. |
| `Gregorian.WeekDay` | script.js:158 | A weekday lies in 0..6, with 0 as Sunday. |
| `Gregorian.YearLength` | script.js:158 | ECMA-262's DayFromYear puts consecutive New Year's days exactly as far apart as the earlier year's length. |
| `Gregorian.DateMonth` | script.js:158-159 | The month `new Date(year, month, …)` falls in is always in range, and for a month in range it is that month of MakeFullYear(year). |
| `Gregorian.FirstWeekday` | script.js:158 | The number of leading blanks, the weekday of the first, lies in 0..6. |
| `Gregorian.LastDate` | script.js:159 | The last date is 28..31, and it is 29 exactly for February of a leap year. |
| `Gregorian.DateMonthSucc` | script.js:159 | Raising the month argument by one moves to the next calendar month, with year carry. |
| `Gregorian.LastDateIsDayBeforeNextFirst` | script.js:159 | Day 0 of the following month, which `new Date(year, month + 1, 0)` denotes, is the day numbered `LastDate` of the month itself. |
| `Gregorian.FirstWeekdayOfNextMonth` | script.js:158-167 | The following month's grid starts on the weekday where this month's grid ends. |
| `Gregorian.WeekDayAdvance` | script.js:158 | Moving on `n` days moves the weekday `n` places round the week. |
| `Gregorian.LeapYearExamples` | script.js:158-159 | February 2024 has 29 days and starts on Thursday. February 1900 has 28 days, February 2000 has 29, and February 2023 has 28. |
| `Ledger.StarKey` | script.js:45-47 | The star ledger key is `starDates_` followed by exactly the child's name. |
| `Ledger.ScoreKey` | script.js:48-50 | The score ledger key is `rouletteScores_` followed by exactly the child's name. |
| `Ledger.LedgerKeysDisjoint` | script.js:45-50 | No star key equals a score key, and neither equals the roster key. |
| `Ledger.LedgerKeysFollowNames` | script.js:45-50 | Two children share a ledger exactly when their names are equal, so a renamed child is looked up under a new key. |
| `Ledger.OtherChildLedgersUntouched` | script.js:45-73 | When two children's names differ, writing one child's star or score ledger leaves what the other child's ledgers read back unchanged. With equal names they share one ledger (`LedgerKeysFollowNames`). |
| `Ledger.SavedRoster` | script.js:34-37 | A saved roster is adopted exactly when one of exactly two names is stored; otherwise the current names stay. |
| `Ledger.LoadStars` | script.js:52-54 | A missing star ledger reads as `{}`, a stored one reads as itself, and anything else throws. |
| `Ledger.LoadScores` | script.js:58-60 | A missing score ledger reads as `{}`, a stored one reads as itself, and anything else throws. |
| `Ledger.PersistRoundTrip` | script.js:41-63 | What the roster and ledger setters persist is what the getters read back. |
| `Ledger.ShownScore` | script.js:191-195 | A score shows exactly when the day is starred and its score is non-zero, and it shows that score. |
| `Ledger.DefaultNamesTrimmed` | script.js:29 | Neither default name is blank or padded with whitespace. |
| `Ledger.RenamedTo` | script.js:96-97 | A new name is never empty. |
| `Ledger.RenamedToIsTrimmed` | script.js:96-98 | The new name is the typed text trimmed, or the slot's default exactly when only whitespace was typed. Either way it neither starts nor ends with whitespace. |
| `Calendar.RerenderShowsStarMonth` | script.js:316-317 | Stopping on the star of a non-negative year re-renders exactly that star's month. |
| `Calendar.NullScoreNeverShown` | script.js:262-267 | A score stored under `"null"` changes no day cell of any month. |
| `Calendar.MarkedDone` | script.js:238-240 | The selected key becomes starred, and the star ledger stores the whole new map. Every other star and every other store entry is unchanged, and no other key is added to either. |
| `Calendar.MarkedDoneIdempotent` | script.js:236-243 | Marking the same day done twice leaves the same map and store as marking it once. |
| `Calendar.ModSucc` | script.js:288 | Advancing `t % n` by one modulo `n` gives `(t + 1) % n`, which keeps the index equal to the tick count modulo `n`. |
| `Calendar.RewardCalendar.constructor` | script.js:10-31 | The initial globals: today's month, no selection, the default roster with child 0 active, and the roulette closed and idle. `starDates` and `scores` are not declared in the script; they are implicit globals first assigned by `switchChild` (script.js:70-71), and empty maps stand in for them until then. |
| `Calendar.RewardCalendar.LoadChildNames` | script.js:33-40 | Fails exactly when the stored roster does not parse. On success it adopts a saved roster of two names, and otherwise keeps the current names. |
| `Calendar.RewardCalendar.SaveChildNames` | script.js:41-43 | Stores the roster under `childNames` and changes nothing else. |
| `Calendar.RewardCalendar.SwitchChild` | script.js:65-73 | Makes `idx` active and replaces the star and score maps with that child's stored ledgers. A ledger that throws stops the switch after the maps already replaced. |
| `Calendar.RewardCalendar.ChildButtonClicked` | script.js:75-79 | Does nothing while that child's name input is open, and otherwise does what `SwitchChild` does: a star ledger that throws leaves both maps, and a score ledger that throws leaves the star map already replaced. |
| `Calendar.RewardCalendar.ChildButtonDoubleClicked` | script.js:81-92 | Opens that child's name input and nothing else. |
| `Calendar.RewardCalendar.ChildInputBlurred` | script.js:94-104 | Sets the slot's name to `RenamedTo` of the typed text and persists the roster. Reloading then reads that same roster back. It closes the input and reloads the active child's ledgers under the current names, with `SwitchChild`'s partial update when a ledger throws. |
| `Calendar.RewardCalendar.Boot` | script.js:322-326 | Loads the roster and then switches to child 0, with `SwitchChild`'s partial update when a ledger throws. A roster that throws stops start-up with nothing changed. |
| `Calendar.RewardCalendar.Render` | script.js:158-201 | The grid has `FirstWeekday` blanks, then one cell per date 1..`LastDate`. Each day cell carries its key, its star and its shown score. |
| `Calendar.RewardCalendar.SelectDate` | script.js:206-212 | Remembers exactly the clicked day and shows the button. |
| `Calendar.RewardCalendar.MarkDone` | script.js:236-243 | Without a selection it changes nothing. Otherwise it applies `MarkedDone` to the selected day under the active child's star key, hides the button and returns the selected day's month as the month it re-renders. In both cases the selection and `currentYear`/`currentMonth` stay. |
| `Calendar.RewardCalendar.ClickedOutsideDay` | script.js:383-387 | Hides the button and keeps the selection. |
| `Calendar.RewardCalendar.PrevMonthClicked` | script.js:341-348 | The month the navigation works from, `(currentYear, currentMonth)`, becomes `PrevMonth` of the old one. |
| `Calendar.RewardCalendar.NextMonthClicked` | script.js:349-356 | The month the navigation works from, `(currentYear, currentMonth)`, becomes `NextMonth` of the old one. |
| `Calendar.RewardCalendar.YearPicked` | script.js:330-333 | Displays a year picked from the ten years either side of this year. |
| `Calendar.RewardCalendar.MonthPicked` | script.js:334-337 | Displays a month picked from 0..11. |
| `Calendar.RewardCalendar.OpenRoulette` | script.js:246-260 | Binds the roulette to the key, opens it, and clears the result and every highlight. |
| `Calendar.RewardCalendar.StartSpinning` | script.js:269-290 | Does nothing while spinning. Otherwise it starts with the index at 0 and clears the result, leaving the scores and the store alone. |
| `Calendar.RewardCalendar.Tick` | script.js:280-289 | While spinning, highlights exactly the item at the index and advances the index by one modulo the item count. The scores are untouched, and when not spinning nothing changes. |
| `Calendar.RewardCalendar.StopSpinning` | script.js:292-319 | Does nothing when not spinning. Otherwise it stops. With an item highlighted it overwrites that item's score under the bound key, persists the score map, announces the prize and re-renders the key's month. The prize is the one the last tick highlighted. Without a highlight the scores stay. |
| `Calendar.RewardCalendar.CloseRoulette` | script.js:262-267 | Closes and unbinds, then stops. Mid-spin with a highlight, the score goes under `"null"` and is persisted, the prize is announced, and the re-render throws. Mid-spin with nothing highlighted the outcome is `NothingHighlighted`. In every case but the first, the scores, the store and the announced result stay. |

## Left out

- Page building: creating and styling elements, toggling classes, the day-name header and `populateYearMonthSelect` (script.js:113-156, 214-234). `Render` yields the cells the grid would show. `Render(year, month)` is the grid a `renderCalendar(year, month)` call draws from the ledgers at that moment. Which month is on screen is not a field: `MarkDone` and `StopSpinning` return the month they re-render, and the navigation handlers re-render `(currentYear, currentMonth)`.
- Event wiring (script.js:322-387). Each handler is a method, and the Enter key's blur is `ChildInputBlurred`.
- The spin and stop buttons' disabled states and the score display's Korean text (script.js:252-254, 273-275, 298-299, 312-313). `result` records which prize was announced.
- The timer (`setInterval`, `clearInterval`, 200 ms). Each tick is a call to `Tick`, and `isSpinning` stands for the live interval handle.
- `localStorage` text and `JSON`. The store maps keys to parsed values, and text that does not parse is `Malformed`. A stored value of the wrong shape, such as a roster array holding non-strings or a ledger that is an array, is treated like a parse failure. So is an empty stored string, which `|| 'null'` and `|| '{}'` would replace.
- Calendar.RewardCalendar.StopSpinning: the prize score is an integer. A `data-score` that `parseInt` reads as NaN is not modelled, and the markup the prizes come from is not part of this model (script.js:304-305).
- Calendar.RewardCalendar.constructor: the roulette is assumed to have at least one item. With none, the interval callback would throw on `items[0]`.
- Calendar.RewardCalendar.Render: `Date`'s time range of about ±275,000 years around 1970 is not modelled. Beyond it, `getDay` and `getDate` give NaN and the grid is empty; the model computes the grid for every year.
- Calendar.RewardCalendar.OpenRoulette: it accepts any key. That only starred days carry the star that opens it is page wiring.
- Text.ParseInt: the `0x` prefix, which `parseInt` without a radix reads as hexadecimal, is not modelled. No date key carries one.
- Calendar.RewardCalendar.Boot: a `JSON.parse` that throws during start-up (script.js:323-324) aborts the `DOMContentLoaded` handler before any listener is attached (script.js:329-379). After that the only handler that still runs is the click-outside listener (script.js:383-387), which is registered at top level and finds no button to hide. No handler can change any state, but the model still lets every method be called after a failed `Boot`.
- JavaScript Numbers: the model's `int` stands for a year, month or date only within the safe-integer range (below 2^53, where `++` on a Number is exact) and below 10^21 (from there, `${n}` prints exponent form such as `1e+21`, which `parseInt` reads back as 1). `IntToString` and `ParseIntOfIntToString` hold for every integer; no navigation reaches those bounds.
- Today's date is a parameter of the constructor, not a clock read.
