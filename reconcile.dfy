/**
 * The incremental fetch of scripts/fetch.js, scripts/fetch.ts and
 * lib/hkjc/fetch.js: list every day from the first draw up to (not
 * including) today, drop the days already known to have no draw and the
 * days already stored, then take the remaining days one at a time — a
 * record found is validated, sorted and written to its file; a day
 * without a draw is added to the no-draw list, which is written back at
 * once; anything else stops the run where it is, undoing nothing.
 *
 * The fetch adapter is a parameter (a function from the day to what the
 * adapter answers); the clock is the parameter `today`; the data directory
 * is a `Store`.
 */
module Reconcile {
  import opened Collections
  import opened Strings
  import opened Calendar
  import opened Records
  import opened FetchRecord

  /** The first Mark Six draw, 1993-01-05. */
  const FirstDrawDate := CivilDate(1993, 1, 5)

  /* ---------- Days ---------- */

  /**
   * `getDatesBetween(start, end)`: the days from `start` up to the day
   * before `end`. The loop stops as soon as the day is no longer before
   * `end`, so `end` itself is never listed, whatever the doc comment says.
   */
  function DatesBetween(start: CivilDate, end: CivilDate): (r: seq<CivilDate>)
    requires Valid(start) && Valid(end)
    ensures forall i :: 0 <= i < |r| ==> Valid(r[i])
    decreases end.year - start.year, 12 - start.month, 31 - start.day
  {
    if Before(start, end) then [start] + DatesBetween(NextDay(start), end) else []
  }

  /** A day is listed exactly when it is on or after `start` and before `end`. */
  lemma {:induction false} DatesBetweenMembers(start: CivilDate, end: CivilDate, x: CivilDate)
    requires Valid(start) && Valid(end) && Valid(x)
    ensures x in DatesBetween(start, end) <==> SameOrBefore(start, x) && Before(x, end)
    decreases end.year - start.year, 12 - start.month, 31 - start.day
  {
    if Before(start, end) {
      DatesBetweenMembers(NextDay(start), end, x);
      if Before(start, x) {
        NextDayIsSuccessor(start, x);
      }
    }
  }

  /** The days are listed in strictly ascending order, each the day after the one before. */
  lemma {:induction false} DatesBetweenAscending(start: CivilDate, end: CivilDate)
    requires Valid(start) && Valid(end)
    ensures Pairwise(DatesBetween(start, end), Before)
    ensures forall i :: 0 <= i < |DatesBetween(start, end)| - 1 ==>
      DatesBetween(start, end)[i + 1] == NextDay(DatesBetween(start, end)[i])
    ensures DatesBetween(start, end) != [] ==> DatesBetween(start, end)[0] == start
    decreases end.year - start.year, 12 - start.month, 31 - start.day
  {
    if Before(start, end) {
      var rest := DatesBetween(NextDay(start), end);
      DatesBetweenAscending(NextDay(start), end);
      var r := [start] + rest;
      forall j | 0 <= j < |rest| ensures Before(start, rest[j]) {
        DatesBetweenMembers(NextDay(start), end, rest[j]);
      }
      forall i, j | 0 <= i < j < |r| ensures Before(r[i], r[j]) {
        if i > 0 {
          assert r[i] == rest[i - 1] && r[j] == rest[j - 1];
        } else {
          assert r[j] == rest[j - 1];
        }
      }
    }
  }

  /** `getDatesBetween`: a day advanced in a `while` loop, each copy pushed. */
  method GetDatesBetween(start: CivilDate, end: CivilDate) returns (dates: seq<CivilDate>)
    requires Valid(start) && Valid(end)
    ensures dates == DatesBetween(start, end)
  {
    dates := [];
    var date := start;
    while Before(date, end)
      invariant Valid(date)
      invariant dates + DatesBetween(date, end) == DatesBetween(start, end)
      decreases end.year - date.year, 12 - date.month, 31 - date.day
    {
      assert DatesBetween(date, end) == [date] + DatesBetween(NextDay(date), end);
      dates := dates + [date];
      date := NextDay(date);
    }
  }

  /* ---------- The no-draw list ---------- */

  /** A moment as the no-draw list holds it: a day, or the invalid moment `moment(text)` gives for unreadable text. */
  datatype Moment = Day(date: CivilDate) | InvalidMoment

  /** `a.isSame(b)`: an invalid moment is the same as nothing. */
  predicate IsSame(a: Moment, b: Moment)
  {
    a.Day? && b.Day? && a.date == b.date
  }

  /** `moment(text)` on an entry of the no-draw file. */
  function ParseMoment(text: string): (m: Moment)
    ensures m.Day? ==> Representable(m.date)
  {
    match ParseYMD(text)
    case Some(c) => Day(c)
    case None => InvalidMoment
  }

  /** `m.format('YYYY-MM-DD')`: an invalid moment prints as `Invalid date`. */
  function FormatMoment(m: Moment): string
    requires m.Day? ==> Valid(m.date)
  {
    match m
    case Day(c) => FormatYMD(c)
    case InvalidMoment => "Invalid date"
  }

  predicate Storable(m: Moment)
  {
    m.Day? ==> Representable(m.date)
  }

  predicate AllStorable(list: seq<Moment>)
  {
    forall i :: 0 <= i < |list| ==> Storable(list[i])
  }

  /** Writing a moment and reading it back gives it again. */
  lemma ParseFormatMoment(m: Moment)
    requires Storable(m)
    ensures ParseMoment(FormatMoment(m)) == m
  {
    if m.Day? {
      ParseFormatYMD(m.date);
    }
  }

  /** `saveNoDrawDates`: the list as the strings written to the file. */
  function SaveFormat(list: seq<Moment>): (r: seq<string>)
    requires AllStorable(list)
    ensures |r| == |list|
  {
    seq(|list|, i requires 0 <= i < |list| => FormatMoment(list[i]))
  }

  /** The list as read back from the file. */
  function ParseAll(texts: seq<string>): (r: seq<Moment>)
    ensures |r| == |texts| && AllStorable(r)
  {
    seq(|texts|, i requires 0 <= i < |texts| => ParseMoment(texts[i]))
  }

  /** A saved list reads back unchanged. */
  lemma ParseAllSaveFormat(list: seq<Moment>)
    requires AllStorable(list)
    ensures ParseAll(SaveFormat(list)) == list
  {
    forall i | 0 <= i < |list| ensures ParseAll(SaveFormat(list))[i] == list[i] {
      ParseFormatMoment(list[i]);
    }
  }

  /** `getNoDrawDates`: a missing file (ENOENT) is an empty list; any other read error is thrown on. */
  function LoadNoDrawDates(file: NoDrawFile): (r: Result<seq<Moment>, string>)
    ensures r.Ok? ==> AllStorable(r.value)
    ensures file.Missing? ==> r == Ok([])
    ensures file.Unreadable? ==> r == Err(file.code)
  {
    match file
    case Missing => Ok([])
    case Unreadable(code) => Err(code)
    case Contents(texts) => Ok(ParseAll(texts))
  }

  /** The days the list names; invalid moments name none (their timestamp is NaN). */
  function DaysOf(list: seq<Moment>): (r: set<CivilDate>)
    ensures forall c :: c in r <==> Day(c) in list
  {
    set i | 0 <= i < |list| && list[i].Day? :: list[i].date
  }

  /** `addDate` / `addUnavailableDate`: the date is pushed unless an equal one is present. */
  function AddDate(list: seq<Moment>, m: Moment): (r: seq<Moment>)
  {
    if exists i :: 0 <= i < |list| && IsSame(list[i], m) then list else list + [m]
  }

  /** A day is added exactly when no equal day is present; nothing else changes. */
  lemma AddDateDay(list: seq<Moment>, c: CivilDate)
    ensures Day(c) in list ==> AddDate(list, Day(c)) == list
    ensures Day(c) !in list ==> AddDate(list, Day(c)) == list + [Day(c)]
    ensures DaysOf(AddDate(list, Day(c))) == DaysOf(list) + {c}
  {
    if Day(c) in list {
      var i :| 0 <= i < |list| && list[i] == Day(c);
      assert IsSame(list[i], Day(c));
    }
  }

  /** Adding twice is adding once, and a list without repeated days keeps none. */
  lemma AddDateIdempotent(list: seq<Moment>, c: CivilDate)
    ensures AddDate(AddDate(list, Day(c)), Day(c)) == AddDate(list, Day(c))
    ensures NoDup(list) ==> NoDup(AddDate(list, Day(c)))
  {
    AddDateDay(list, c);
    AddDateDay(AddDate(list, Day(c)), c);
  }

  /** The in-memory no-draw list, which `addDate` changes in place. */
  class DateList {
    var moments: seq<Moment>

    constructor (moments: seq<Moment>)
      ensures this.moments == moments
    {
      this.moments := moments;
    }

    /** `addDate(dates, date)`: `_.find` for a moment that `isSame`, and a push when there is none. */
    method Add(m: Moment)
      modifies this
      ensures moments == AddDate(old(moments), m)
    {
      var i := 0;
      while i < |moments|
        invariant 0 <= i <= |moments|
        invariant forall j :: 0 <= j < i ==> !IsSame(moments[j], m)
      {
        if IsSame(moments[i], m) {
          return;
        }
        i := i + 1;
      }
      moments := moments + [m];
    }
  }

  /* ---------- Missing days ---------- */

  /** Where `getFetchedDates` finds a stored record's day. */
  datatype DateSource =
    | RecordContent   // scripts/fetch.js, lib/hkjc/fetch.js: the `date` field of each file
    | FileNamePrefix  // scripts/fetch.ts: the file name up to its first `.`

  function DateText(name: string, d: DrawData, source: DateSource): string
  {
    match source
    case RecordContent => d.date
    case FileNamePrefix => DateOfFileName(name)
  }

  /** The day a stored file names as `getFetchedDates` reads it; text that is no `YYYY-MM-DD` day names none. */
  function StoredDay(name: string, d: DrawData, source: DateSource): Option<CivilDate>
  {
    ParseYMD(DateText(name, d, source))
  }

  function Reader(source: DateSource): (string, DrawData) -> Option<CivilDate>
  {
    (name, d) => StoredDay(name, d, source)
  }

  /** The days the files of a directory name, read by `read`. */
  function ReadDays(records: map<string, DrawData>, read: (string, DrawData) -> Option<CivilDate>): set<CivilDate>
  {
    set f | f in records && read(f, records[f]).Some? :: read(f, records[f]).value
  }

  /** `getFetchedDates`: the days of the stored records. */
  function FetchedDates(records: map<string, DrawData>, source: DateSource): set<CivilDate>
  {
    ReadDays(records, Reader(source))
  }

  /**
   * `getMissingDates`: the days from `first` to yesterday that equal
   * neither a no-draw day nor a stored day, in calendar order.
   * `_.differenceBy` compares `unix()` timestamps of start-of-day moments,
   * which is comparing days.
   */
  function MissingDates(first: CivilDate, today: CivilDate, noDraw: seq<Moment>, fetched: set<CivilDate>): seq<CivilDate>
    requires Valid(first) && Valid(today)
  {
    DifferenceBy(DatesBetween(first, today), DaysOf(noDraw) + fetched)
  }

  /** Exactly the days in range that are neither excluded nor stored, each once, ascending. */
  lemma MissingDatesSpec(first: CivilDate, today: CivilDate, noDraw: seq<Moment>, fetched: set<CivilDate>)
    requires Valid(first) && Valid(today)
    ensures forall c :: Valid(c) ==> (c in MissingDates(first, today, noDraw, fetched) <==>
      SameOrBefore(first, c) && Before(c, today) && Day(c) !in noDraw && c !in fetched)
    ensures Pairwise(MissingDates(first, today, noDraw, fetched), Before)
  {
    forall c | Valid(c) {
      DatesBetweenMembers(first, today, c);
    }
    DatesBetweenAscending(first, today);
    DifferenceByPairwise(DatesBetween(first, today), DaysOf(noDraw) + fetched, Before);
  }

  /** Repeated entries in either list change nothing: only which days they name counts. */
  lemma MissingDatesIgnoresRepeats(first: CivilDate, today: CivilDate, a: seq<Moment>, b: seq<Moment>, fetched: set<CivilDate>)
    requires Valid(first) && Valid(today)
    requires forall m :: m in a <==> m in b
    ensures MissingDates(first, today, a, fetched) == MissingDates(first, today, b, fetched)
  {
    assert DaysOf(a) == DaysOf(b);
  }

  /* ---------- The run ---------- */

  /** Why a run stopped at a day. */
  datatype Cause = FetchFailed | Rejected(error: ValidationError)

  /** How a run ends. Every variant ends the process with exit code 0. */
  datatype Halt =
    | Completed
    | Aborted(day: CivilDate, cause: Cause)
    | LoadFailed(code: string)

  /** What the run has changed so far: the in-memory list, the files, and the records saved (`markSixes`). */
  datatype RunState = RunState(noDraw: seq<Moment>, records: map<string, DrawData>, noDrawFile: NoDrawFile, saved: seq<DrawData>)

  datatype Run = Run(state: RunState, halt: Halt)

  /** What one day does to a run: it goes on from a new state, or it stops the run. */
  datatype Step = Go(next: RunState) | Stop(halt: Halt)

  /**
   * One iteration of the loop: a failed fetch stops at the day; no data adds
   * the day to the list and writes the list; a record is initialised,
   * validated (a rejection stops at the day), sorted, written to
   * `<date>.json` and pushed to `markSixes`.
   */
  function StepDay(d: CivilDate, st: RunState, fetch: CivilDate -> FetchResult, order: NumberOrder): (s: Step)
    requires Representable(d) && AllStorable(st.noDraw)
    ensures s.Go? ==> AllStorable(s.next.noDraw)
  {
    match fetch(d)
    case Failed => Stop(Aborted(d, FetchFailed))
    case NoDraw =>
      var list := AddDate(st.noDraw, Day(d));
      assert AllStorable(list);
      Go(st.(noDraw := list, noDrawFile := Contents(SaveFormat(list))))
    case Found(data) =>
      match Prepared(data, order)
      case Err(e) => Stop(Aborted(d, Rejected(e)))
      case Ok(rec) => Go(st.(records := st.records[FileName(rec.date) := rec], saved := st.saved + [rec]))
  }

  /** The effect of the loop over the missing days, one day after the other, until a day stops it. */
  function Process(days: seq<CivilDate>, st: RunState, fetch: CivilDate -> FetchResult, order: NumberOrder): Run
    requires forall i :: 0 <= i < |days| ==> Representable(days[i])
    requires AllStorable(st.noDraw)
    decreases |days|
  {
    if days == [] then Run(st, Completed)
    else
      match StepDay(days[0], st, fetch, order)
      case Stop(halt) => Run(st, halt)
      case Go(next) => Process(days[1..], next, fetch, order)
  }

  /** One variant of the fetch script: the `MarkSix` class it saves with and where it reads stored days. */
  datatype Script = Script(order: NumberOrder, source: DateSource)

  /** scripts/fetch.js with models/mark-six.model.js. */
  const JsScript := Script(Numeric, RecordContent)

  /** scripts/fetch.ts with models/mark-six.model.ts. */
  const TsScript := Script(Lexicographic, FileNamePrefix)

  /** lib/hkjc/fetch.js with models/mark-six.model.js. */
  const LegacyScript := Script(Numeric, RecordContent)

  /** The days one run will try, given the directory it starts from. */
  function MissingFor(first: CivilDate, today: CivilDate, list: seq<Moment>, records: map<string, DrawData>, source: DateSource): seq<CivilDate>
    requires Representable(first) && Representable(today)
    ensures forall i :: 0 <= i < |MissingFor(first, today, list, records, source)| ==>
      Representable(MissingFor(first, today, list, records, source)[i])
  {
    var r := MissingDates(first, today, list, FetchedDates(records, source));
    assert forall i :: 0 <= i < |r| ==> r[i] in DatesBetween(first, today);
    forall i | 0 <= i < |r| ensures Representable(r[i]) {
      DatesBetweenMembers(first, today, r[i]);
    }
    r
  }

  /** A whole run from a given data directory. */
  function RunFrom(first: CivilDate, today: CivilDate, records: map<string, DrawData>, file: NoDrawFile,
                   fetch: CivilDate -> FetchResult, script: Script): Run
    requires Representable(first) && Representable(today)
  {
    match LoadNoDrawDates(file)
    case Err(code) => Run(RunState([], records, file, []), LoadFailed(code))
    case Ok(list) =>
      Process(MissingFor(first, today, list, records, script.source), RunState(list, records, file, []), fetch, script.order)
  }

  /**
   * The loop shared by the three variants: each missing day is fetched; a
   * record is saved through a `MarkSix` and kept; a day without a draw is
   * added to the list and the list written; a failure ends the loop.
   * `results` is what `Promise.mapSeries` collects: the record, or nothing
   * for a day without a draw.
   */
  method ProcessMissing(store: Store, noDrawDates: DateList, missing: seq<CivilDate>,
                        fetch: CivilDate -> FetchResult, order: NumberOrder)
    returns (halt: Halt, markSixes: seq<DrawData>, results: seq<Option<DrawData>>)
    requires forall i :: 0 <= i < |missing| ==> Representable(missing[i])
    requires AllStorable(noDrawDates.moments)
    modifies store, noDrawDates
    ensures Run(RunState(noDrawDates.moments, store.records, store.noDrawFile, markSixes), halt) ==
      Process(missing, RunState(old(noDrawDates.moments), old(store.records), old(store.noDrawFile), []), fetch, order)
    ensures Compact(results) == markSixes
  {
    ghost var start := RunState(noDrawDates.moments, store.records, store.noDrawFile, []);
    markSixes := [];
    results := [];
    var i := 0;
    while i < |missing|
      invariant 0 <= i <= |missing|
      invariant AllStorable(noDrawDates.moments)
      invariant Process(missing[i..], RunState(noDrawDates.moments, store.records, store.noDrawFile, markSixes), fetch, order)
        == Process(missing, start, fetch, order)
      invariant Compact(results) == markSixes
    {
      var d := missing[i];
      assert missing[i..][0] == d && missing[i..][1..] == missing[i + 1..];
      var stop, result := SettleDay(store, noDrawDates, d, fetch, order, markSixes);
      if stop.Some? {
        return stop.value, markSixes, results;
      }
      CompactAppend(results, result);
      if result.Some? {
        markSixes := markSixes + [result.value];
      }
      results := results + [result];
      i := i + 1;
    }
    halt := Completed;
  }

  /**
   * One pass of the loop body: fetch the day, then either add it to the
   * no-draw list and rewrite the list file, or save the record it gives.
   * A failed fetch or a rejected record stops with nothing changed.
   */
  method SettleDay(store: Store, noDrawDates: DateList, d: CivilDate, fetch: CivilDate -> FetchResult,
                   order: NumberOrder, ghost saved: seq<DrawData>)
    returns (stop: Option<Halt>, result: Option<DrawData>)
    requires Representable(d) && AllStorable(noDrawDates.moments)
    modifies store, noDrawDates
    ensures AllStorable(noDrawDates.moments)
    ensures match StepDay(d, RunState(old(noDrawDates.moments), old(store.records), old(store.noDrawFile), saved), fetch, order)
      case Stop(halt) =>
        && stop == Some(halt)
        && noDrawDates.moments == old(noDrawDates.moments)
        && store.records == old(store.records) && store.noDrawFile == old(store.noDrawFile)
      case Go(next) =>
        && stop == None
        && next == RunState(noDrawDates.moments, store.records, store.noDrawFile,
                            saved + (if result.Some? then [result.value] else []))
  {
    var data := fetch(d);
    if data.Failed? {
      return Some(Aborted(d, FetchFailed)), None;
    }
    if data.NoDraw? {
      noDrawDates.Add(Day(d));
      store.WriteNoDrawFile(SaveFormat(noDrawDates.moments));
      return None, None;
    }
    var markSix := new MarkSix.Init(data.data, order);
    var saved' := markSix.Save(store);
    if saved'.Err? {
      return Some(Aborted(d, Rejected(saved'.error))), None;
    }
    assert FileName(markSix.date) == FileName(saved'.value.date);
    return None, Some(saved'.value);
  }

  lemma {:induction false} CompactAppend<T(!new)>(xs: seq<Option<T>>, x: Option<T>)
    ensures Compact(xs + [x]) == Compact(xs) + (if x.Some? then [x.value] else [])
  {
    if xs == [] {
      assert xs + [x] == [x];
    } else {
      assert (xs + [x])[1..] == xs[1..] + [x];
      CompactAppend(xs[1..], x);
    }
  }

  /**
   * scripts/fetch.js and scripts/fetch.ts: load the list, compute the
   * missing days, run the loop. Whatever happens the process exits with
   * code 0; the model returns how the run ended and the records saved.
   */
  method RunFetchScript(store: Store, today: CivilDate, fetch: CivilDate -> FetchResult, script: Script)
    returns (halt: Halt, markSixes: seq<DrawData>)
    requires Representable(today)
    modifies store
    ensures var run := RunFrom(FirstDrawDate, today, old(store.records), old(store.noDrawFile), fetch, script);
      halt == run.halt && markSixes == run.state.saved
      && store.records == run.state.records && store.noDrawFile == run.state.noDrawFile
  {
    var loaded := LoadNoDrawDates(store.noDrawFile);
    if loaded.Err? {
      return LoadFailed(loaded.error), [];
    }
    var noDrawDates := new DateList(loaded.value);
    var dates := GetDatesBetween(FirstDrawDate, today);
    var missing := DifferenceBy(dates, DaysOf(noDrawDates.moments) + FetchedDates(store.records, script.source));
    assert missing == MissingFor(FirstDrawDate, today, loaded.value, store.records, script.source);
    var results;
    halt, markSixes, results := ProcessMissing(store, noDrawDates, missing, fetch, script.order);
  }

  /**
   * lib/hkjc/fetch.js: the same run with the first draw day from the
   * configuration, collecting through `mapSeries` and `compact`; a failure
   * rejects the returned promise.
   */
  method FetchUnavailable(store: Store, first: CivilDate, today: CivilDate, fetch: CivilDate -> FetchResult)
    returns (r: Result<seq<DrawData>, Halt>)
    requires Representable(first) && Representable(today)
    modifies store
    ensures var run := RunFrom(first, today, old(store.records), old(store.noDrawFile), fetch, LegacyScript);
      (r.Ok? <==> run.halt == Completed)
      && (r.Ok? ==> r.value == run.state.saved)
      && (r.Err? ==> r.error == run.halt)
      && store.records == run.state.records && store.noDrawFile == run.state.noDrawFile
  {
    var loaded := LoadNoDrawDates(store.noDrawFile);
    if loaded.Err? {
      return Err(LoadFailed(loaded.error));
    }
    var unavailableDates := new DateList(loaded.value);
    var dates := GetDatesBetween(first, today);
    var missing := DifferenceBy(dates, DaysOf(unavailableDates.moments) + FetchedDates(store.records, RecordContent));
    assert missing == MissingFor(first, today, loaded.value, store.records, RecordContent);
    var halt, markSixes, results := ProcessMissing(store, unavailableDates, missing, fetch, Numeric);
    if halt != Completed {
      return Err(halt);
    }
    r := Ok(Compact(results));
  }
}
