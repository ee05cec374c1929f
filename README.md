# marker: the Mark Six fetcher, modelled in Dafny

marker keeps a local copy of the Hong Kong Mark Six lottery results. It has
one JSON file per draw (`data/records/<YYYY-MM-DD>.json`) and a list of the
days on which no draw took place. This project models four parts of it and
proves what they guarantee.

- **The incremental fetch** (`scripts/fetch.js`, `scripts/fetch.ts`,
  `lib/hkjc/fetch.js`; modules `Reconcile` and `ReconcileProofs`).
  - The script lists every day from the first draw (1993-01-05) up to
    yesterday. It drops the days already known: the no-draw days and the
    days of the stored records.
  - It asks the fetch adapter about each remaining day, in calendar order.
    - A day with no draw is added to the list, and the list is rewritten at once.
    - A day with a record has that record validated, sorted and saved.
      The scraper behind `lib/hkjc/fetch.js` answers without an `id`, so
      there `validate` rejects every record found and the run stops at the
      first draw day. The model proves this as well.
    - A failure ends the run. Nothing is rolled back.
  - The proofs cover:
    - where the run stops;
    - what it adds to the list and to the record directory;
    - that the list on disk always reads back as the list in memory;
    - resuming: a second run tries exactly the days the first did not
      settle, the stop day first, and after a complete run it has nothing
      left to do.
- **The fetch adapter** (`lib/fetchRecord.js`, `src/lib/fetchRecord.ts`;
  module `FetchRecord`).
  - A cache of three-month query windows. The first cached window that
    holds the day is reused; otherwise a new window is opened and cached.
  - The `YYYYMMDD` query.
  - The lookup of the entry dated `DD/MM/YYYY`.
  - `normalize`, which turns the feed's entry into a record.
- **The record** (`models/mark-six.model.js`, `models/mark-six.model.ts`,
  `src/models/mark-six.model.ts`; module `Records`).
  - `validate`: four checks, in order.
  - `sort`: numeric in the JavaScript model and in `src/models`. In
    `models/mark-six.model.ts` it is the default `Array.prototype.sort`,
    which orders the numbers by their decimal strings, so `[23, 4, 49]`
    stays as it is. The model keeps that ordering for that variant.
  - `presave`, `save`, and the `<date>.json` file name.
- **The statistics** (`scripts/stats.js`, `lib/hkjc/stats.js`,
  `scripts/stats.ts`, `src/scripts/stats.ts`; module `Stats`).
  - Frequency tables built with `accumulate`, ordered by count or by
    percentage.
  - Percentages.
  - The numbers of 1..49 that none of the ten latest draws holds.

The helper modules are these:

- `Calendar`: civil dates, the next day, three months later, and the
  `YYYY-MM-DD`, `DD/MM/YYYY` and `YYYYMMDD` renderings.
- `Strings`: `split`, `join`, decimal digits, and the lexicographic string order (by code point).
- `Sorting`: the stable insertion sort that stands for lodash `sortBy` and
  for JavaScript's stable `sort`.
- `Collections`: `differenceBy`, `uniq`, `compact`, `takeRight`, `flatMap`
  and `reverse`.

Stateful parts of the source are classes:

| Class | What it holds | Methods |
|---|---|---|
| `Records.Store` | the data directory | `WriteRecord`, `WriteNoDrawFile` |
| `Records.MarkSix` | a record instance | `Init`, `Validate`, `Sort`, `Presave`, `Save` |
| `Reconcile.DateList` | the in-memory no-draw list that `addDate` mutates | `Add` |
| `FetchRecord.RangeCache` | the module-level cache of windows | `GetDateRange`, `GetQuery`, `Fetch` |
| `Stats.Table` | a frequency table that `accumulate` updates in place | `Accumulate`, `AccumulateAll` |

Each loop of the source is a method. Each method is proved equal to a
function, and the lemmas are stated about that function.

The clock, the file system, the HTTP request and the fetch adapter are
parameters:

- today's date;
- the directory contents and the no-draw file;
- the feed's answer, as a function from the query to the entries;
- the adapter's answer, as a function from the day to `Failed`, `NoDraw` or
  `Found(record)`.

## Model

| member | source | states |
|---|---|---|
| `Calendar.NextDay` | scripts/fetch.js:99 | adding one day gives a valid date strictly after the day |
| `Calendar.NextDayIsSuccessor` | scripts/fetch.js:97-100 | no valid day lies strictly between a day and the next one, so the loop skips no day |
| `Calendar.AddMonths` | src/lib/fetchRecord.ts:54 | three months later is a valid date after the day (the day of month clamped to the month's length) |
| `Calendar.ParseFormatYMD` | config/config.js:22 | a day written as `YYYY-MM-DD` reads back as the same day |
| `Calendar.FormatYMDInjective` | models/mark-six.model.js:48-50 | different days have different `YYYY-MM-DD` strings, hence different record file names |
| `Calendar.DmyToYmdFormatDMY` | lib/fetchRecord.js:66 | the feed's `DD/MM/YYYY` date of a day converts to that day's `YYYY-MM-DD` |
| `Calendar.DmyToYmdKeepsFields` | src/lib/fetchRecord.ts:67 | the conversion only rearranges the year, month and day fields of the text |
| `Calendar.LexLeFormatCompact` | src/lib/fetchRecord.ts:33-39 | `YYYYMMDD` strings compare as strings exactly as their days compare |
| `Strings.Split` | src/lib/fetchRecord.ts:69 | `split` gives at least one piece and no piece holds the separator |
| `Strings.SplitCount` | lib/fetchRecord.js:68 | `split('+')` gives one more piece than there are `+` signs |
| `Strings.JoinSplit` | src/lib/fetchRecord.ts:69 | joining the pieces of a split with the separator gives the text back |
| `Strings.SplitJoin` | lib/fetchRecord.js:68 | splitting pieces joined with a separator they do not hold gives the pieces back |
| `Strings.SplitPrefix` | scripts/fetch.ts:106 | the first piece of a split of `p + t` starts with all of `p` when `p` has no separator |
| `Strings.ToNumber` | lib/fetchRecord.js:69 | a text is read as a number exactly when it is a digit string |
| `Strings.ToNumberDecimalString` | src/lib/fetchRecord.ts:70 | the decimal string of a number reads back as the number |
| `Strings.LexLeTotal` | models/mark-six.model.ts:126 | any two strings are ordered one way or the other by the string comparison |
| `Strings.LexLeTransitive` | scripts/stats.js:32 | the string comparison is transitive |
| `Strings.LexLeAntisymmetric` | scripts/stats.ts:66 | two strings each at most the other are equal |
| `Sorting.SortBy` | models/mark-six.model.js:67 | the sort is a rearrangement: same length, same multiset |
| `Sorting.SortBySorted` | models/mark-six.model.js:66-68 | under a total preorder the sorted sequence is ordered |
| `Sorting.SortBySortedIdempotent` | src/models/mark-six.model.ts:137-141 | an ordered sequence is left as it is |
| `Sorting.SortByStable` | scripts/stats.ts:59 | the sort is stable: elements the order cannot tell apart keep their relative order |
| `Sorting.SortedUnique` | src/models/mark-six.model.ts:138-139 | two ordered rearrangements of the same elements are equal when the order tells them apart |
| `Sorting.SortDescending` | scripts/stats.js:20 | sort-then-`reverse` is a rearrangement in descending order |
| `Sorting.SortDescendingTies` | scripts/stats.js:21 | sort-then-`reverse` lists tied elements in reverse of their original order |
| `Collections.DifferenceBy` | scripts/fetch.js:80-83 | the result holds exactly the elements not unwanted, in their order, and is no longer than the input |
| `Collections.DifferenceByPairwise` | scripts/fetch.ts:78-81 | dropping elements keeps an ordered sequence ordered |
| `Collections.DifferenceBySnoc` | lib/hkjc/stats.js:35-39 | one more element at the end is kept exactly when it is not unwanted |
| `Collections.DifferenceByNoDup` | lib/hkjc/fetch.js:67-70 | dropping elements keeps a sequence free of repeats |
| `Collections.Uniq` | scripts/stats.js:35 | `_.uniq` has no repeats and the same members |
| `Collections.UniqOfNoDup` | scripts/stats.ts:69 | `_.uniq` leaves a sequence without repeats as it is |
| `Collections.UniqPrefix` | scripts/stats.js:35 | `_.uniq` of a prefix is a prefix of `_.uniq` of the whole |
| `Collections.UniqFirstOccurrence` | scripts/stats.ts:69 | `_.uniq` keeps the order of first occurrence: what comes before a value in the result occurs in the input before every occurrence of that value |
| `Collections.Compact` | lib/hkjc/fetch.js:31 | `_.compact` keeps exactly the present values |
| `Collections.TakeRight` | scripts/stats.js:33 | `_.takeRight(n)` is the last `min(n, length)` elements |
| `Collections.Flatten` | scripts/stats.ts:16 | a value is in the flattened list iff one of the lists holds it |
| `Collections.Reverse` | scripts/stats.js:21 | `reverse` puts element `i` at position `length - 1 - i` |
| `Collections.MapPermutation` | scripts/stats.ts:58 | mapping two rearrangements of the same rows gives rearrangements of the same results |
| `Collections.NoDupPermutation` | lib/hkjc/stats.js:20 | a rearrangement of a sequence without repeats has none |
| `Records.ValidateRecord` | models/mark-six.model.js:76-87 | `validate` passes exactly the acceptable records (date, id, six numbers, a nonzero numeric special), unchanged |
| `Records.ValidateError` | models/mark-six.model.ts:137-148 | each error is thrown exactly when its check fails and the earlier checks pass; the count error carries the count |
| `Records.FileName` | models/mark-six.model.js:48-50 | the file name is the date followed by `.json` |
| `Records.DateOfFileNameFileName` | scripts/fetch.ts:106 | the text before the first `.` of a record's file name is its date |
| `Records.LeOfTotalPreorder` | models/mark-six.model.ts:125-128 | both orders `sort` uses (numeric, decimal string) are total preorders |
| `Records.SortNumbers` | models/mark-six.model.js:66-68 | `sort` rearranges the numbers |
| `Records.SortNumbersOrdered` | src/models/mark-six.model.ts:137-141 | after `sort` the numbers are in the variant's order |
| `Records.SortNumbersIdempotent` | models/mark-six.model.ts:125-128 | sorting numbers already in order changes nothing |
| `Records.SortNumbersDetermined` | src/models/mark-six.model.ts:138-139 | any ordered arrangement of the numbers is what `sort` gives, when the order tells them apart |
| `Records.SortNaturalsDetermined` | models/mark-six.model.ts:126 | under either order, an ordered rearrangement of natural numbers is the one `sort` gives |
| `Records.SortNumericExample` | src/models/mark-six.model.ts:138 | the comparator `a - b` sorts the draw `[23, 4, 49, 1, 17, 30]` into `[1, 4, 17, 23, 30, 49]` |
| `Records.SortDecimalStringExample` | models/mark-six.model.ts:126 | the default `sort()` puts the same draw in string order, `[1, 17, 23, 30, 4, 49]` |
| `Records.StringLeAntisymmetric` | models/mark-six.model.ts:126 | different non-negative numbers have different decimal strings, so the string order tells them apart |
| `Records.Prepared` | models/mark-six.model.js:60-64 | `presave` fails with the `validate` error exactly on unacceptable records, otherwise keeps date, id and special and rearranges the numbers |
| `Records.PreparedIdempotent` | src/models/mark-six.model.ts:124-128 | a prepared record is acceptable and ordered, and preparing it again changes nothing |
| `Records.Store.WriteRecord` | models/mark-six.model.js:72 | writing a record file replaces that file only |
| `Records.Store.WriteNoDrawFile` | scripts/fetch.js:135-139 | writing the no-draw file replaces its contents only |
| `Records.MarkSix.Init` | models/mark-six.model.js:12-17 | `init` copies the four fields |
| `Records.MarkSix.Validate` | models/mark-six.model.js:76-87 | `validate` on the instance is `validate` on its data and changes nothing |
| `Records.MarkSix.Sort` | models/mark-six.model.ts:125-128 | `sort` reorders the numbers in the variant's order and changes no other field |
| `Records.MarkSix.Presave` | models/mark-six.model.ts:112-116 | `presave` gives the prepared record and leaves the instance as it; a rejected record is untouched |
| `Records.MarkSix.Save` | models/mark-six.model.js:70-74 | `save` writes the prepared record to `<date>.json` and nothing else; a rejected record writes nothing |
| `FetchRecord.FirstContaining` | src/lib/fetchRecord.ts:47-49 | `_.find` gives the first cached window holding the day, or none when no window holds it |
| `FetchRecord.NewRange` | lib/fetchRecord.js:51-52 | a new window runs from the day to three months later and holds the day |
| `FetchRecord.RangeForContains` | src/lib/fetchRecord.ts:46-58 | the window returned holds the day; a miss appends exactly that window and keeps the earlier ones |
| `FetchRecord.CacheAfterIdempotent` | lib/fetchRecord.js:43-55 | asking again for the same day gives the same window and leaves the cache as it was |
| `FetchRecord.QueryBracketsDay` | lib/fetchRecord.js:30-36 | `sd` and `ed` bracket the day's own `YYYYMMDD` in string order |
| `FetchRecord.ParseNumbers` | lib/fetchRecord.js:68 | the pieces are read exactly when each is a digit string, one number per piece, in order |
| `FetchRecord.Normalize` | src/lib/fetchRecord.ts:64-72 | `normalize` copies the id, converts the date to `YYYY-MM-DD`, gives one number per `+`-separated piece and reads the special number |
| `FetchRecord.ParseRenderedNumbers` | src/lib/fetchRecord.ts:69 | numbers rendered in decimal read back as themselves |
| `FetchRecord.NormalizeFeedEntry` | lib/fetchRecord.js:63-71 | normalising the feed entry of a draw gives that draw back, dated `YYYY-MM-DD` |
| `FetchRecord.FindEntry` | src/lib/fetchRecord.ts:25 | the entry found is the first one carrying the date; none is found exactly when no entry carries it |
| `FetchRecord.LookupNoDraw` | lib/fetchRecord.js:17-19 | the adapter answers "no draw" exactly when no entry carries the day's `DD/MM/YYYY` date |
| `FetchRecord.LookupFoundDate` | src/lib/fetchRecord.ts:24-26 | a record found for a day is dated that day and reads back as it |
| `FetchRecord.RangeCache.constructor` | src/lib/fetchRecord.ts:19 | the cache starts empty |
| `FetchRecord.RangeCache.GetDateRange` | src/lib/fetchRecord.ts:46-58 | the linear search returns the first cached window holding the day, or caches and returns a new one |
| `FetchRecord.RangeCache.GetQuery` | src/lib/fetchRecord.ts:33-39 | the query is the chosen window's ends as `YYYYMMDD` |
| `FetchRecord.RangeCache.Fetch` | src/lib/fetchRecord.ts:21-27 | the adapter's answer is the lookup of the day in the feed's answer for the chosen window |
| `Reconcile.DatesBetween` | scripts/fetch.js:94-102 | every listed day is a valid date |
| `Reconcile.DatesBetweenMembers` | scripts/fetch.ts:89-97 | a day is listed iff it is on or after the start and before the end |
| `Reconcile.DatesBetweenAscending` | lib/hkjc/fetch.js:80-88 | the days are strictly ascending, start at the start day, each the day after the one before |
| `Reconcile.GetDatesBetween` | scripts/fetch.js:95-101 | the `while` loop collects exactly the days between |
| `Reconcile.ParseMoment` | scripts/fetch.js:56 | a text read as a day names a day with a four-digit year |
| `Reconcile.ParseFormatMoment` | scripts/fetch.ts:127 | a moment written out and read back is the same moment |
| `Reconcile.SaveFormat` | scripts/fetch.js:136 | the file holds one string per moment |
| `Reconcile.ParseAll` | scripts/fetch.ts:54-57 | one moment is read per string |
| `Reconcile.ParseAllSaveFormat` | scripts/fetch.js:135-139 | a saved no-draw list reads back unchanged |
| `Reconcile.LoadNoDrawDates` | scripts/fetch.js:53-66 | a missing file is the empty list; any other read error is passed on |
| `Reconcile.DaysOf` | scripts/fetch.js:80 | the days a list names are exactly its valid moments |
| `Reconcile.AddDateDay` | scripts/fetch.js:123-127 | a day is pushed exactly when no equal day is present; the named days gain exactly that day |
| `Reconcile.AddDateIdempotent` | scripts/fetch.ts:116-120 | adding a day twice is adding it once, and a list without repeats keeps none |
| `Reconcile.DateList.constructor` | scripts/fetch.js:17 | the in-memory list starts as the list read from the file |
| `Reconcile.DateList.Add` | lib/hkjc/fetch.js:107-110 | the in-place search-and-push is `addDate` on the list |
| `Reconcile.MissingDatesSpec` | scripts/fetch.js:74-85 | the missing days are exactly the days in range that are neither no-draw nor stored, ascending |
| `Reconcile.MissingDatesIgnoresRepeats` | scripts/fetch.ts:78-81 | repeated entries in the no-draw list do not change the missing days |
| `Reconcile.ProcessMissing` | scripts/fetch.js:20-36 | the loop leaves the list, the directory and `markSixes` as the run function says; the collected results compact to `markSixes` |
| `Reconcile.SettleDay` | scripts/fetch.ts:22-35 | one pass: a failed fetch or a rejected record stops with nothing changed, otherwise the day's step is applied |
| `Reconcile.CompactAppend` | lib/hkjc/fetch.js:30-31 | compacting one more result appends its value when present |
| `Reconcile.RunFetchScript` | scripts/fetch.ts:16-44 | the script leaves the directory and the no-draw file as the run from the first draw day says and reports how it ended |
| `Reconcile.FetchUnavailable` | lib/hkjc/fetch.js:13-32 | the promise resolves iff the run completes, to the saved records; otherwise it rejects with the stop |
| `ReconcileProofs.Settled` | scripts/fetch.js:20-24 | the settled days are the leading days whose answer is not fatal, up to the first fatal one |
| `ReconcileProofs.FoundRecords` | scripts/fetch.js:32-34 | every saved record passed `validate` and has its numbers in order |
| `ReconcileProofs.StepHalt` | scripts/fetch.js:38-41 | a day stops the run exactly when its answer is fatal, naming the day and the cause |
| `ReconcileProofs.StepNoDraw` | scripts/fetch.js:25-30 | a settled day changes the list only by `addDate`, and only on "no draw" |
| `ReconcileProofs.StepSaved` | scripts/fetch.ts:33-35 | a settled day pushes its record, if it has one, onto `markSixes` |
| `ReconcileProofs.StepPersists` | scripts/fetch.ts:28-30 | after a settled day the no-draw file reads back as the list |
| `ReconcileProofs.ProcessHalt` | scripts/fetch.js:15-43 | the run completes iff no day is fatal; otherwise it stops at the first fatal day with its cause |
| `ReconcileProofs.ProcessNoDraw` | scripts/fetch.ts:26-31 | the list keeps its entries in place and gains exactly the settled "no draw" days |
| `ReconcileProofs.ProcessKeepsList` | lib/hkjc/fetch.js:26 | the run only ever appends to the no-draw list |
| `ReconcileProofs.ProcessAddsSettled` | lib/hkjc/fetch.js:23-27 | a moment is in the final list iff it was before or a settled day added it |
| `ReconcileProofs.ProcessPersists` | scripts/fetch.js:29 | whenever the run stops, the no-draw file reads back as the list in memory |
| `ReconcileProofs.ProcessSaved` | scripts/fetch.js:34 | `markSixes` is exactly the records of the settled days that had one, in order |
| `ReconcileProofs.LegacyResult` | lib/hkjc/fetch.js:30-31 | a completed legacy run resolves to the records of every missing day that had one |
| `ReconcileProofs.IdlessFatal` | models/mark-six.model.js:77-79 | a record with a date and no `id` is rejected with 'missing draw number', so every answer but "no draw" stops the run |
| `ReconcileProofs.ProcessIdless` | lib/hkjc/fetch.js:17-20 | with an adapter answering without an `id`, no record is saved and the directory is unchanged |
| `ReconcileProofs.ProcessIdlessHalt` | lib/hkjc/fetch.js:13-32 | with such an adapter the run completes iff every day has no draw, and otherwise stops at the first other day, with 'missing draw number' if it had a draw |
| `ReconcileProofs.LegacyAdapterRejected` | lib/hkjc/ResultsDetailPage/helper.js:18-25 | the legacy fetch with the scraper's `{date, number, result}` answer saves nothing and stops at the first day that has a draw or fails |
| `ReconcileProofs.CacheAdapterFaithful` | src/lib/fetchRecord.ts:24-26 | whatever the cache and the feed, a record `fetchRecord` finds for a day is dated that day |
| `ReconcileProofs.StoredDayOfSave` | scripts/fetch.js:109-113 | the file `save` writes for a day is read back as that day, from its content or its name |
| `ReconcileProofs.SaveAddsDay` | scripts/fetch.ts:103-109 | saving a day's record adds exactly that day to the stored days |
| `ReconcileProofs.StepKnown` | scripts/fetch.js:78-83 | a settled day joins the known days and nothing else does |
| `ReconcileProofs.ProcessCovers` | scripts/fetch.ts:72-83 | after the run the known days are those before plus exactly the settled days |
| `ReconcileProofs.ProcessConsistent` | models/mark-six.model.js:72 | every stored file stays named after its record's date |
| `ReconcileProofs.AscendingUnique` | lib/hkjc/fetch.js:68-70 | two strictly ascending lists of the same days are the same list |
| `ReconcileProofs.DifferenceByPrefix` | scripts/fetch.js:81-83 | marking the first `k` missing days known leaves the remaining missing days |
| `ReconcileProofs.Resume` | scripts/fetch.js:17-18 | a second run reads the list back and tries exactly the days this run did not settle, in order |
| `ReconcileProofs.CompletedRunConverges` | lib/hkjc/fetch.js:63-71 | after a complete run a second run finds nothing missing and changes nothing |
| `ReconcileProofs.Partition` | scripts/fetch.ts:78-81 | after a run every day of the range is either known or still missing, never both |
| `ReconcileProofs.AbortedDayNotSettled` | scripts/fetch.ts:38-43 | the stop day is neither listed nor stored, and it is the first day a later run tries |
| `ReconcileProofs.ProcessKeepsDisjoint` | scripts/fetch.ts:26-35 | no day ends up both on the no-draw list and stored |
| `ReconcileProofs.StepDisjoint` | scripts/fetch.js:25-35 | a new day settles on one side only |
| `Stats.FindRow` | scripts/stats.js:52 | `_.find` gives the first row of the value, or none when no row has it |
| `Stats.AccumulatedSpec` | scripts/stats.js:51-55 | `accumulate` pushes `{x, 1}` for a new value or counts one more on its row; no other row changes and rows stay one per value |
| `Stats.Table.constructor` | scripts/stats.ts:18 | a table starts empty |
| `Stats.Table.Accumulate` | scripts/stats.ts:43-47 | the in-place search and update is `accumulate` on the rows |
| `Stats.Table.AccumulateAll` | scripts/stats.ts:21 | accumulating each value in turn gives the tally of all values seen |
| `Stats.TallySnoc` | lib/hkjc/stats.js:46-50 | tallying one more value is accumulating it |
| `Stats.TallyKeys` | src/scripts/stats.ts:43-47 | the table has one row per distinct value, in order of first occurrence |
| `Stats.TallyCounts` | lib/hkjc/stats.js:46-50 | a value has a row iff it occurs, and each row counts the value's occurrences |
| `Stats.TallySum` | scripts/stats.js:14-19 | the counts add up to the number of values |
| `Stats.SumCountsPermutation` | scripts/stats.js:20 | reordering the rows keeps the sum of their counts |
| `Stats.CountAll` | src/scripts/stats.ts:21-22 | the `_.each` loop from an empty table gives the tally |
| `Stats.DrawnMembers` | scripts/stats.js:34 | a number is drawn iff one of the records holds it |
| `Stats.CountDraws` | scripts/stats.js:14-19 | the interleaved loop gives the tally of all numbers and the tally of the special numbers |
| `Stats.ByCountDescendingOrdered` | scripts/stats.js:20-21 | sorting by count and reversing rearranges the table, most frequent first |
| `Stats.ByCountDescendingTies` | lib/hkjc/stats.js:19-20 | equally frequent rows come out in reverse order of first occurrence |
| `Stats.PerMilleMonotone` | scripts/stats.js:23-26 | a larger count never has a smaller percentage, and a count up to the total is at most 1 |
| `Stats.ByPercentageDescendingSpec` | scripts/stats.ts:56-62 | every row keeps its own percentage; the table is rearranged so that the percentages never increase |
| `Stats.ByPercentageDescendingTies` | scripts/stats.ts:59-60 | rows of the same percentage come out in reverse order of first occurrence |
| `Stats.RatedByCountDescending` | lib/hkjc/stats.js:22-27 | when rows are rated after the sort by count, the percentages are descending too |
| `Stats.ByDateTotalPreorder` | scripts/stats.js:32 | sorting by the date string uses a total preorder |
| `Stats.LatestSpec` | scripts/stats.js:30-33 | the latest records are the last `min(10, n)` records in date order, a rearrangement sorted by date |
| `Stats.LatestNumbersSpec` | scripts/stats.ts:64-71 | the latest numbers have no repeats and are exactly the numbers the latest records hold |
| `Stats.AllNumbers` | scripts/stats.ts:10 | the numbers of the game are 1..49, ascending, 49 of them |
| `Stats.NumbersNotIn` | scripts/stats.js:37-41 | the `for` loop over 1..49 computes the difference of 1..49 and the numbers |
| `Stats.NumbersNotInSpec` | scripts/stats.ts:27 | the difference is exactly the numbers of 1..49 not given, ascending |
| `Stats.NotInLatestSpec` | src/scripts/stats.ts:26-27 | `notInLast10` lists, ascending, exactly the numbers of 1..49 that none of the ten latest records holds |
| `Stats.DescribesPermutation` | src/scripts/stats.ts:56-62 | any rearrangement of the tally, each row with its own percentage, is a frequency table of the values |
| `Stats.CountReportSpec` | scripts/stats.js:7-41 | both tables have one row per distinct value with its count and percentage, the counts sum to the values, most frequent first; the record count and `notInLast10` are as specified |
| `Stats.PercentReportSpec` | scripts/stats.ts:14-33 | both tables have one row per distinct value with its count and percentage, highest percentage first; the record count and `notInLast10` are as specified |
| `Stats.CountStats` | lib/hkjc/stats.js:4-41 | the body of the JavaScript scripts computes the count-ordered report |
| `Stats.PercentStats` | src/scripts/stats.ts:12-38 | the body of the TypeScript scripts computes the percentage-ordered report |
| `Stats.ScriptStats` | scripts/stats.js:4-46 | scripts/stats.js over the records' `numbers` and `special` |
| `Stats.LegacyStats` | lib/hkjc/stats.js:13-18 | lib/hkjc/stats.js over `result.numbers` and `result.extra` |
| `Stats.TypedStats` | scripts/stats.ts:12-38 | scripts/stats.ts over `numbers` and `special` |

## Left out

- Strings.LexLe: Dafny characters are Unicode code points, so the string order compares code points. JavaScript's `<=`, as used by `sort()` and `_.sortBy('date')`, compares UTF-16 code units. The two differ only on text with characters above U+FFFF. The strings the core builds and compares are ASCII: `YYYY-MM-DD` dates, `YYYYMMDD` queries and decimal renderings of numbers. Only a record date read from a file could hold such characters, and `ByDate`, `Latest` and `NotInLatest` would then order it differently from the source.
- File system, JSON and console output.
  - Reading, writing and listing are modelled as a map from file name to record and a no-draw file value.
  - JSON parsing of a corrupt record file is not modelled.
  - Write failures are not modelled: writes always succeed.
  - Log lines and the process exit code are not modelled. Every run exits with code 0, and the model returns how it ended.
- The clock.
  - `moment().startOf('day')` is a parameter `today`.
  - The first draw day of lib/hkjc/fetch.js comes from the environment (`FIRST_MARK_SIX_DATE`) and is a parameter.
  - lib/hkjc/fetch.js formats and parses dates with `STANDARD_DATE_FORMAT`, also from the environment (config/index.js:13,27). The model fixes it to `YYYY-MM-DD` for that variant.
- Moment internals.
  - Days are civil dates with a year up to 9999 (the four-digit `YYYY` field).
  - Time zones, times of day, and moment's non-strict parsing of arbitrary text are not modelled. Text that is not `YYYY-MM-DD` reads as an invalid moment.
- The HTTP request and the page scraper.
  - `getJSON` is a parameter.
  - lib/hkjc/ResultsDetailPage/fetchMarkSix.js is not part of this model. The legacy fetch takes the adapter's answer as a parameter.
  - apis/ and the browser bundling scripts are not part of this model.
- FetchRecord.Normalize: lodash `toNumber` is modelled on digit strings only. Any other text gives `None`, which the adapter reports as a failure.
  - The source instead produces `NaN` and lets `validate` reject it, for the special number only. A `NaN` among the six numbers would pass `validate`, since it checks only the count.
- Stats.PerMilleMonotone: percentages are whole thousandths, `floor(1000 * count / total)`, not floating point. Floating-point rounding of `count / total` is not modelled.
- Stats.LegacyStats: lib/hkjc/stats.js reads `result.numbers` and `result.extra`, but the record class it loads (models/mark-six.model.js) holds `numbers` and `special`. The model follows the shape the statistics code reads.
  - As written, the `MarkSix` constructor copies only `date`, `id`, `numbers` and `special` (models/mark-six.model.js:12-17), so `markSix.result` is always undefined. lib/hkjc/stats.js:15 then throws a TypeError on the first record. Only an empty directory gives a report. `LegacyStats` models the computation the code states, not a run that completes.
- The order in which `readdir` lists files is the input order of the records. The model fixes no order.
- The date passed to `fetchRecord` is the very moment that is pushed onto the no-draw list. In the model the list holds values, so aliasing between the two is not modelled.
- ReconcileProofs.Resume: the resumption lemmas assume two things:
  - that the adapter is faithful: a record found for a day is dated that day. `CacheAdapterFaithful` proves it for `fetchRecord`, whatever its cache holds. The answer of lib/hkjc/ResultsDetailPage/fetchMarkSix.js is not part of this model and is assumed;
  - that, when days are read from file content, each stored file is named after its record's date. The source does not check this.
- Reconcile.FetchUnavailable: it and `LegacyResult` describe an adapter that answers with `id`, `numbers` and `special`. The repository's own scraper answers `{date, number, result}` with no `id` (lib/hkjc/ResultsDetailPage/helper.js:18-25). With it, `validate` rejects every record found with 'missing draw number', the run stops at the first draw day and only no-draw days are ever added. `LegacyAdapterRejected` proves this.
  - The legacy fetch lists the record directory from `RECORDS_DIRECTORY` (config/index.js:14,28; lib/hkjc/fetch.js:96). `MarkSix.get` and `save` then read and write `data/records` (config/config.js:23; models/mark-six.model.js:99-100).
  - The model keeps one directory, `store.records`, for both. So it assumes `RECORDS_DIRECTORY` names `data/records`.
  - With any other directory the source differs: a listed name missing from `data/records` makes `get` fail with ENOENT and the run rejects before any fetch, and a record only in `data/records` is not counted as fetched.
  - The store's no-draw file stands for the file at `UNAVAILABLE_DATES_FILEPATH` (config/index.js:15,29; lib/hkjc/fetch.js:52,121).
- The comment above `getDatesBetween` calls it inclusive. The loop stops before `end` (today), and the model follows the loop.
