# RunLog ledger model

A Dafny model of the core of RunLog, a small Java running log. It has two
parts.

- **`Run` (Run.java): one logged run.** The model covers:
  - validation of the distance and of the time text (`verifyTime`);
  - parsing of the time text into hours, minutes and seconds (`stringToTime`), then `LocalTime.of`;
  - the derived `"W:SS"` pace text (`calculatePace`);
  - the guarded rating, the text setters, `setRunTime` and the date order (`compareTo`).
- **`RunStorage` (RunStorage.java): the collection.** The model covers:
  - a list kept in ascending date order by appending and then stably sorting;
  - a size counter;
  - the fastest and the longest run, updated incrementally by `addRun` and rescanned by `removeRun`;
  - the binary search by date (`findRun`, `getRun`);
  - the "latest seven" sub-collection (`getLatest7`).

Modules:

- `Wrappers`: `Option`, `Result` and `Outcome`. They stand for Java's `null` and for thrown exceptions. Each exception has its own error value.
- `Text`: the Java library behaviour the code relies on:
  - ASCII digits;
  - `"" + n`;
  - `Integer.parseInt`, including its `int` range;
  - `String.split(":")`, including the dropping of trailing empty fields;
  - `trim` and `isBlank`.
- `Dates`: calendar dates.
  - A date is the key `year * 10000 + month * 100 + day`.
  - `LocalDate.parse` becomes a partial function on ISO 8601 extended calendar dates (`YYYY-MM-DD`, section 4.1.2.2 of ISO 8601:2004).
- `Runs`: Run.java.
  - `Run` is a class. `distance` and `runDate` are `const`, because the source never reassigns them. The other fields are `var`.
  - Validation and parsing are functions.
  - The two loops of `verifyTime` are methods proved equal to the function `VerifyTime`. The `int` sum of `verifyTime` wraps around at 32 bits, and the model writes that out (`Wrap32`).
  - Each throwing Java constructor is a factory method (`NewRun`, `NewRunOn`) that returns a `Result`. The Dafny constructor takes the values once they have been validated.
- `Ledger`: RunStorage.java. `RunStorage` is a class whose methods update `runStorage: seq<Run>`, `size`, `fastestRun` and `longestRun`.
  - Append followed by `Collections.sort` on a sorted list is `InsertAfterEquals`. It puts the new run after every run whose date is not later than its own.
  - `comparePace` is a function.

The ledger follows the code as written. The defects are shown in "## Findings", each next to a corrected version that is proved correct.

Some loops sit in their own module-level methods, called at the point where the source runs them, with the same loop structure:

- The scans of `setFastest` and `setLongest` are `ScanFastest` and `ScanLongest`.
- The two loops of `getLatest7` are `CopyInOrder` and `CopyLatestSeven`, and the body of the second loop is `AddEarlier`.

In the same way, `addRun` hands its aggregate update to `AdmitToAggregates`, and `removeRun` hands the part between the search and the removal to `RescanBeforeRemoval`. The corrected removal `RemoveRunExact` likewise hands the found index to `RemoveAndRescanExact`, which calls `RemoveAndRescan`.

The invariant of a collection is `RunStorage.Valid()`:

- `size` is the list length;
- the list is sorted by date;
- a non-empty collection has both aggregates set.

`RunStorage.AggregatesExact()` says that the two aggregates are stored runs of the greatest distance and of the fastest pace.

## Model

| member | source | states |
|---|---|---|
| Dates.DateKeyOrder | Run.java:276-279 | on valid dates the key order is the calendar order that `LocalDate.compareTo` uses, and equal keys mean the same date |
| Dates.ParseFormatIsoDate | Run.java:81 | every date with a four-digit year is read back from its `YYYY-MM-DD` text |
| Dates.ParseIsoDate | Run.java:81 | a parsed date comes from a ten-character text with `-` at positions 4 and 7, and is the key of a valid calendar date |
| Dates.LeapDayExample | Run.java:81 | `2024-02-29` parses, `2023-02-29` (not a leap year) and `2023-2-28` (unpadded month) are rejected |
| Text.ParseIntNatToString | Run.java:340 | on digit-only strings, `Integer.parseInt` reads back the decimal text of every non-negative `int` value as that value |
| Text.JavaSplit | Run.java:333 | every field of `split(":")` is free of colons |
| Text.NatToStringValue | Run.java:256-257 | reading back the decimal text of a number gives the number |
| Text.JoinSplitFields | Run.java:333 | splitting on `:` loses nothing: joining the fields gives the text back |
| Text.SplitJoinFields | Run.java:333 | splitting the join of colon-free fields gives those fields |
| Text.JavaSplitJoin | Run.java:333 | `split(":")` of colon-free fields, the last one non-empty, gives those fields |
| Text.DigitMakesNonBlank | Run.java:317 | a text holding a digit passes the `trim().isBlank()` check |
| Runs.VerifyTime | Run.java:316-345 | an accepted text is present and non-empty, and a rejection is always one of the five `verifyTime` errors (blank, illegal character, field count, unparsable field, zero sum) |
| Runs.CheckTime | Run.java:316-345 | the imperative `verifyTime` (character loop, then summing loop) returns exactly the outcome of `VerifyTime` |
| Runs.CheckTimeChars | Run.java:321-330 | the character loop succeeds exactly when every character is a digit or `:` |
| Runs.SumFields | Run.java:338-341 | the summing loop fails exactly when some field is not an `int`, and otherwise yields the 32-bit wrapped sum of the fields |
| Runs.ZeroFieldSumWraps | Run.java:338-344 | a zero sum of the field values is a zero `int` sum too |
| Runs.VerifyTimeAccepted | Run.java:316-345 | an accepted text is non-blank, has digits and colons only, splits into 1 to 3 non-empty digit fields within `int`, and has a positive total |
| Runs.SmallFieldsDoNotWrap | Run.java:338-341 | with at most three fields below 2^29 the `int` sum is the exact sum |
| Runs.VerifyDigitFields | Run.java:316-345 | one to three small digit fields joined by colons are split back into those fields and accepted exactly when their sum is positive, otherwise rejected as zero |
| Runs.ZeroTimeRejected | Run.java:342-344 | `"00:00:00"` is rejected as a zero time |
| Runs.LetterRejected | Run.java:321-330 | `"5x:00"` is rejected for an illegal character |
| Runs.ParseRunTime | Run.java:72-77 | a parsed time passed `verifyTime` and is within `LocalTime` bounds; a `verifyTime` failure is passed on unchanged |
| Runs.ParseRunTimeHms | Run.java:179-187 | the zero-padded `HH:MM:SS` text of any valid non-zero time parses to that time |
| Runs.ParseRunTimeSeconds | Run.java:161-166 | a single field `S` is the time `0:0:S`, accepted exactly when `S <= 59` |
| Runs.ParseRunTimeTwoFields | Run.java:169-176 | as written, a two-field text `A:B` is the time with hour `B` and minute `A` |
| Runs.StringToTime | Run.java:151-189 | on a text `verifyTime` accepts, the three numbers are `int` values that are not negative |
| Runs.ParseRunTimeDigitFields | Run.java:151-189 | for every text of one to three non-empty digit fields, padded or not, the parsed time is `LocalTime.of(0, 0, S)` for `S`, `LocalTime.of(B, A, 0)` for `A:B` (as written) and `LocalTime.of(H, M, S)` for `H:M:S`; fields that add up to zero are rejected as a zero time |
| Runs.MinutesSecondsRejected | Run.java:169-175 | as written, `"01:30"` is rejected as hour 30 |
| Runs.MinutesSecondsSwapped | Run.java:169-175 | as written, `"30:05"` becomes 5 hours 30 minutes |
| Runs.MinutesSecondsRoundTrip | Run.java:168-176 | with the intended reading, every zero-padded `MM:SS` text of a non-zero duration under an hour parses to that many minutes and seconds |
| Runs.PaceOfBounds | Run.java:245-254 | the pace minutes are non-negative, the seconds lie in 0..60 (60 is not carried), and the pace is within half a second of the exact minutes per unit of distance |
| Runs.ParsePaceMatchesSplit | RunStorage.java:229-236 | reading the first two colon-separated fields directly agrees with `split(":")` followed by indexing on every text |
| Runs.ParseFormatPace | Run.java:256-263 | a formatted pace text (`""+minutes`, `:`, seconds padded to two digits) reads back as its two numbers |
| Runs.CalculatePace | Run.java:235-267 | the pace text reads back as the minutes and seconds of `PaceOf` (floor of minutes per unit of distance, rounded seconds of the fraction) |
| Runs.PaceExample | Run.java:235-267 | half an hour over 6.0 is the pace `"5:00"` |
| Runs.PaceRolloverExample | Run.java:251-263 | 1 minute 59 seconds over 2.0 is `"0:60"`: a rounded 60 seconds stays 60 |
| Runs.PaceDependsOnTime | Run.java:245-248 | half an hour and an hour over the same distance give different pace texts |
| Runs.Run.constructor | Run.java:75-87 | a new run holds the given distance, time and date, the pace calculated from them, no title, location or description, and rating 0 |
| Runs.Run.SetTitle | Run.java:95-97 | the title becomes the argument and no other field changes |
| Runs.Run.SetLocation | Run.java:103-105 | the location becomes the argument and no other field changes |
| Runs.Run.SetDescription | Run.java:141-143 | the description becomes the argument and no other field changes |
| Runs.Run.SetRating | Run.java:112-118 | a rating in 1..10 is stored; any other value fails with the range error and leaves the rating unchanged |
| Runs.Run.SetRunTime | Run.java:125-135 | a null or blank text fails with `NoSuchElementException`; an invalid text fails with the error of `verifyTime` or `LocalTime.of` and leaves the time unchanged; a valid one replaces the time; the pace never changes |
| Runs.Run.SetRunTimeRecomputingPace | Run.java:120-135 | as documented: on success the pace is the pace of the new time, on failure time and pace are unchanged |
| Runs.StalePaceExample | Run.java:134 | as written, after a successful `setRunTime` the stored pace differs from the pace of the stored time |
| Runs.Run.CompareTo | Run.java:276-279 | the sign is that of the date comparison: negative, zero or positive exactly when this run's date is earlier, the same or later |
| Runs.CompareToAntisymmetric | Run.java:276-279 | swapping the runs negates the result, and only the other run's date matters |
| Runs.CheckRunInputs | Run.java:68-77 | a null or too-small distance fails first, with the distance error; with a valid distance the result is the time check's |
| Runs.NewRun | Run.java:28-51 | the constructor fails exactly when the distance or time checks fail, with their error; otherwise the new run is initialised with today's date |
| Runs.NewRunOn | Run.java:64-89 | the distance and time checks come first; then an unparsable date fails; otherwise the new run carries the parsed date |
| Ledger.ComparePace | RunStorage.java:227-261 | 1 exactly when the first pace is faster (fewer minutes, or equal minutes and fewer seconds), -1 exactly when it is slower, 0 exactly when both numbers agree |
| Ledger.ComparePaceOrder | RunStorage.java:227-261 | swapping the arguments negates the answer, and "not slower" and "faster" are transitive |
| Ledger.ComparePaceOfRuns | RunStorage.java:227-261 | the pace texts of two runs compare as faster exactly when their computed pace numbers do |
| Ledger.InsertAfterEquals | RunStorage.java:80-81 | adding and sorting gives one more run: the old runs plus the new one |
| Ledger.InsertAfterEqualsShape | RunStorage.java:80-81 | the new run is spliced in after every run dated no later than it and before every run dated after it, and the others keep their order |
| Ledger.InsertAfterEqualsSorted | RunStorage.java:80-81 | adding to a date-sorted list keeps it sorted |
| Ledger.InsertAfterEqualsStable | RunStorage.java:80-81 | among the runs of one date the new run comes last and the others keep their order (the sort is stable) |
| Ledger.InsertAfterLatest | RunStorage.java:80-81 | a run dated no earlier than every stored run is appended |
| Ledger.Probe | RunStorage.java:118-137 | the binary search on `[low, high]` answers an index in range holding the date, or -1; on a sorted list -1 means no run in range has the date |
| Ledger.Search | RunStorage.java:114-138 | on a sorted list the search answers -1 exactly when no stored run has the date, and otherwise an in-bounds index of a run with that date |
| Ledger.RunStorage.FindRun | RunStorage.java:114-138 | the `while` loop over `low` and `high` returns what `Search` specifies |
| Ledger.SearchTieBreak | RunStorage.java:140-157 | three runs of one date, added in turn, are stored in the order added, and the search answers the second, not the first entered |
| Ledger.InsertThreeOnOneDate | RunStorage.java:80-81 | three runs of one date added in turn are stored in the order added |
| Ledger.SearchThreeOnOneDate | RunStorage.java:118-123 | the first probe among three runs of one date is the middle one |
| Ledger.FindFirstRun | RunStorage.java:140-145 | as the documentation of `getRun` promises: -1 exactly when no run has the date, otherwise the first run of that date, which by stability is the first entered |
| Ledger.FastestIndexIsFirstFastest | RunStorage.java:271-278 | the scan of `setFastest` settles on a run that none of the scanned runs is faster than, and every run before it is slower |
| Ledger.LongestIndex | RunStorage.java:290-297 | the scan of `setLongest` settles on a run of the greatest distance among the scanned runs, and every run before it is shorter |
| Ledger.FastestOfIsFastest | RunStorage.java:266-280 | the rescanned fastest of the first `n` runs is one of them, and none of them is faster |
| Ledger.LongestOfIsLongest | RunStorage.java:285-300 | the rescanned longest of the first `n` runs is one of them, and none of them is longer |
| Ledger.ScanFastest | RunStorage.java:271-278 | the `for` scan of `setFastest` returns the run at the index `FastestIndex` specifies |
| Ledger.ScanLongest | RunStorage.java:290-297 | the `for` scan of `setLongest` returns the run at the index `LongestIndex` specifies |
| Ledger.RunStorage.SetFastest | RunStorage.java:266-280 | `fastestRun` becomes the fastest of the first `size` runs, or null when `size` is 0 |
| Ledger.RunStorage.SetLongest | RunStorage.java:285-300 | as written: with `size` 0 it clears `fastestRun` and keeps `longestRun`; otherwise `longestRun` becomes the longest of the first `size` runs |
| Ledger.RunStorage.SetLongestClearing | RunStorage.java:282-300 | corrected: `longestRun` becomes the longest of the first `size` runs, or null when `size` is 0 |
| Ledger.RemoveAtIndex | RunStorage.java:105 | `remove(index)` keeps the runs before the index and shifts the ones after it down by one |
| Ledger.RemoveKeepsSorted | RunStorage.java:105 | removing a run from a sorted list keeps it sorted |
| Ledger.AddKeepsExact | RunStorage.java:64-77 | the strict-improvement update keeps exact aggregates exact: the kept holder of the longest (fastest) run is not beaten by the new run, so no stored run beats it |
| Ledger.RemoveKeepsExact | RunStorage.java:91-107 | corrected removal: removing a run and rescanning whichever aggregate was that run keeps exact aggregates exact |
| Ledger.RemoveKeepsFastest | RunStorage.java:91-107 | the fastest-run half of `RemoveKeepsExact` |
| Ledger.RemoveKeepsLongest | RunStorage.java:91-107 | the longest-run half of `RemoveKeepsExact` |
| Ledger.RunStorage.constructor | RunStorage.java:13-16 | a new collection is empty with both aggregates null, and its aggregates are trivially exact |
| Ledger.RunStorage.GetSize | RunStorage.java:199-201 | the counter is the number of stored runs |
| Ledger.RunStorage.GetFastest | RunStorage.java:215-217 | set in a non-empty collection; when exact, a stored run that no stored run is faster than |
| Ledger.RunStorage.GetLongest | RunStorage.java:207-209 | set in a non-empty collection; when exact, a stored run that no stored run is longer than |
| Ledger.RunStorage.AdmitToAggregates | RunStorage.java:64-77 | the first run becomes both aggregates; later the longest changes only to a strictly longer run and the fastest only when `comparePace(new, fastest) > 0` |
| Ledger.RunStorage.AddRun | RunStorage.java:62-84 | the list becomes the old one with the run inserted after its date's runs, stays sorted, the counter grows by one, the aggregates follow the strict-improvement rule, and exact aggregates stay exact |
| Ledger.RunStorage.RemoveRun | RunStorage.java:91-107 | as written: without a run of the argument's date nothing changes and null is returned; otherwise the run at the found index (possibly another run of that date) is removed and returned, the counter drops by one, the list stays sorted, and each aggregate whose date equals the argument's is rescanned over the first `size - 1` runs of the unchanged list (with `setLongest` clearing `fastestRun` at size 0) |
| Ledger.RunStorage.RescanBeforeRemoval | RunStorage.java:98-104 | the counter drops by one and each aggregate whose date equals the argument's is rescanned while the run is still stored |
| Ledger.RemovedRunStaysAggregate | RunStorage.java:98-105 | as written: removing the earlier of two runs that tie on pace and distance leaves the removed run as both aggregates, although it is no longer stored |
| Ledger.RemovedLastRunStaysLongest | RunStorage.java:286-289 | as written: removing the only run clears `fastestRun` but leaves `longestRun` on the removed run |
| Ledger.RunStorage.RemoveRunExact | RunStorage.java:91-107 | corrected: the found run is removed first, and an aggregate that is that very run is rescanned over what is left (null when nothing is left); the others stay, and exact aggregates stay exact |
| Ledger.RunStorage.RemoveAndRescanExact | RunStorage.java:98-105 | corrected removal at a found index: the run leaves the list, aggregates that were that run are rescanned over the rest, and exact aggregates stay exact |
| Ledger.RunStorage.RemoveAndRescan | RunStorage.java:98-105 | corrected removal at a found index: the run leaves the list and the list stays sorted, and only aggregates that were that run are rescanned, over what is left |
| Ledger.ProbeTimeAccepted | RunStorage.java:151 | the probe run's time `"00:10:00"` with distance 1.0 always passes the checks |
| Ledger.RunStorage.GetRun | RunStorage.java:146-157 | a null or blank date fails with `IllegalArgumentException`; an unparsable date fails as the probe's constructor does; no run of the date fails with `NoSuchElementException`; otherwise the result is the stored run the search finds, which has that date |
| Ledger.RunStorage.GetLatest7 | RunStorage.java:164-180 | the receiver is not changed; a new collection with exact aggregates holds the whole list when fewer than seven runs are stored, and otherwise the last seven runs with their dates in the original ascending order |
| Ledger.CopyInOrder | RunStorage.java:168-172 | adding a sorted list run by run from the first appends each run, so the copy equals the list |
| Ledger.AppendNext | RunStorage.java:169-170 | adding the next run of a sorted list to a copy of its prefix gives the longer prefix |
| Ledger.CopyLatestSeven | RunStorage.java:175-179 | adding the last seven runs from the latest back gives those runs with their dates in ascending order |
| Ledger.AddEarlier | RunStorage.java:176-177 | one step of the descending loop extends the copy of the runs after `i` to the runs from `i` on |
| Ledger.LatestStep | RunStorage.java:176-177 | a run dated no later than the runs already copied goes in front of them as far as dates are concerned |

## Left out

- FrontendRun.java and RunApp.java: the text menu, console prompts and the entry point. These are user-interface glue.
- `RunStorage.readFile`: file and `Scanner` input. It is not part of this model.
- Both `toString` methods: display only.
- Floating point. Distances and paces are exact `real`s.
  - The `(int)` cast of the non-negative pace is `Floor`.
  - `Math.round` is the floor of `x + 0.5`.
  - IEEE rounding of the divisions and NaN are not modelled.
- `Double.parseDouble` in `comparePace` is read as decimal digits. Every stored pace text is made by `calculatePace` and holds digit fields only, so nothing is lost for stored runs.
- `LocalDate.now()` is a parameter (`today` of `NewRun`).
- `LocalDate.parse` covers four-digit years only. Signed and extended years are not modelled.
- `Integer.parseInt` is modelled on digit-only strings. Its leading `+` or `-` is not, because only digits and colons pass the character check before it is called.
- `Character.isDigit` is ASCII `0`..`9`. Unicode digits of other scripts are not modelled.
- `Runs.Run.CompareTo`: only the sign of `LocalDate.compareTo` is modelled, not its magnitude. Every caller uses the sign only.
- `Collections.sort` is modelled by its result on a sorted list with one run appended (`InsertAfterEquals`). The merge sort itself is not modelled.
- Null `Run` arguments are not modelled; every `Run` parameter of the model is non-null. In the source:
  - on a non-empty collection, `addRun(null)` and `removeRun(null)` throw `NullPointerException`;
  - on an empty collection, `addRun(null)` stores `null`, sets both aggregates to `null` and makes `size` 1;
  - on an empty collection, `removeRun(null)` returns `null`, because the search loop never runs.
- `Ledger.RunStorage.RemoveRun` reads `getFastest()` as the field it returns.
- `Ledger.RunStorage.GetLatest7`: with seven or more runs it states the runs (as a multiset) and their dates in order, not the order of runs that share a date. That order comes out reversed, because each run added goes after the runs of its date already copied.
- The getters of `Run` (`getTitle` and so on) are plain field reads. The model reads the fields directly.

## Findings

| source | as written | input that shows it | evidently intended | confidence | as-written member | corrected member |
|---|---|---|---|---|---|---|
| Run.java:169-175 | a two-field time `A:B` becomes hour `B`, minute `A` | `"30:05"` becomes 5:30:00; `"01:30"` is rejected as hour 30 | `M:S` is `M` minutes and `S` seconds, as the comment on line 168 says | high, not executed | Runs.MinutesSecondsSwapped | Runs.MinutesSecondsRoundTrip |
| Run.java:134 | `setRunTime` computes the new pace and discards it | a 6.0 run at `00:30:00` keeps pace `"5:00"` after `setRunTime("01:00:00")`, whose pace is `"10:00"` | the pace is recalculated, as the comment on lines 121-122 says | high, not executed | Runs.StalePaceExample | Runs.Run.SetRunTimeRecomputingPace |
| RunStorage.java:98-105 | the counter is decremented and the aggregates whose date equals the argument's are rescanned before the run is removed, over the first `size - 1` runs of the unchanged list | two runs on consecutive days with equal pace and distance; removing the first leaves it as both aggregates | the run is removed first, and an aggregate that is the removed run is rescanned over what is left | high, not executed | Ledger.RemovedRunStaysAggregate | Ledger.RunStorage.RemoveRunExact |
| RunStorage.java:286-289 | `setLongest` on an empty collection clears `fastestRun` | add one run, remove it: `getLongest()` still returns it | `longestRun` is cleared | high, not executed | Ledger.RemovedLastRunStaysLongest | Ledger.RunStorage.SetLongestClearing |
| RunStorage.java:141-142 | `getRun` returns whichever run of the date the binary search hits first | three runs of one date: the search answers the second | the first entered run of the date is returned | high, not executed | Ledger.SearchTieBreak | Ledger.FindFirstRun |
