/**
 * What one run of the incremental fetch guarantees: where it stops, what
 * it adds to the no-draw list and to the record directory, that every
 * change is on disk when it stops, and that a later run on the same day
 * resumes exactly at the day where this one stopped (and, after a
 * complete run, has nothing left to do).
 */
module ReconcileProofs {
  import opened Collections
  import opened Strings
  import opened Calendar
  import opened Records
  import opened FetchRecord
  import opened Reconcile

  /** An answer that stops the run: the adapter failed, or `validate` rejected the record. */
  predicate Fatal(r: FetchResult, order: NumberOrder)
  {
    r.Failed? || (r.Found? && Prepared(r.data, order).Err?)
  }

  /** How many leading days a run gets through before the first fatal answer. */
  function Settled(days: seq<CivilDate>, fetch: CivilDate -> FetchResult, order: NumberOrder): (k: nat)
    ensures k <= |days|
    ensures forall i :: 0 <= i < k ==> !Fatal(fetch(days[i]), order)
    ensures k < |days| ==> Fatal(fetch(days[k]), order)
  {
    if days == [] || Fatal(fetch(days[0]), order) then 0
    else 1 + Settled(days[1..], fetch, order)
  }

  /** The record a day contributes to `markSixes`: the prepared record, when there is one and it passes. */
  function SavedRecord(r: FetchResult, order: NumberOrder): Option<DrawData>
  {
    if r.Found? && Prepared(r.data, order).Ok? then Some(Prepared(r.data, order).value) else None
  }

  /** Every record passed validation and has its numbers in the order `presave` sorts them into. */
  predicate AllPrepared(records: seq<DrawData>, order: NumberOrder)
  {
    forall j :: 0 <= j < |records| ==> Acceptable(records[j]) && Pairwise(records[j].numbers, LeOf(order))
  }

  /** The records a run saves from `days`, in the order of the days: one per day with a record, each accepted and sorted. */
  function FoundRecords(days: seq<CivilDate>, fetch: CivilDate -> FetchResult, order: NumberOrder): (r: seq<DrawData>)
    ensures |r| <= |days|
    ensures AllPrepared(r, order)
  {
    if days == [] then []
    else
      var rest := FoundRecords(days[1..], fetch, order);
      var head := SavedRecord(fetch(days[0]), order);
      if head.Some? then
        PreparedIdempotent(fetch(days[0]).data, order);
        AllPreparedCons(head.value, rest, order);
        [head.value] + rest
      else rest
  }

  lemma AllPreparedCons(rec: DrawData, rest: seq<DrawData>, order: NumberOrder)
    requires Acceptable(rec) && Pairwise(rec.numbers, LeOf(order)) && AllPrepared(rest, order)
    ensures AllPrepared([rec] + rest, order)
  {
    forall j | 0 < j < |[rec] + rest| ensures ([rec] + rest)[j] == rest[j - 1] {
    }
  }

  lemma FoundRecordsCons(days: seq<CivilDate>, fetch: CivilDate -> FetchResult, order: NumberOrder)
    requires days != []
    ensures FoundRecords(days, fetch, order) ==
      (if SavedRecord(fetch(days[0]), order).Some? then [SavedRecord(fetch(days[0]), order).value] else [])
      + FoundRecords(days[1..], fetch, order)
  {
  }

  lemma FoundRecordsPrefix(days: seq<CivilDate>, k: nat, fetch: CivilDate -> FetchResult, order: NumberOrder)
    requires 0 < k <= |days|
    ensures FoundRecords(days[..k], fetch, order) ==
      (if SavedRecord(fetch(days[0]), order).Some? then [SavedRecord(fetch(days[0]), order).value] else [])
      + FoundRecords(days[1..][..k - 1], fetch, order)
  {
    PrefixCons(days, k);
    assert days[..k][1..] == days[1..][..k - 1];
    FoundRecordsCons(days[..k], fetch, order);
  }

  /** The preconditions `Process` needs. */
  predicate Ready(days: seq<CivilDate>, st: RunState)
  {
    (forall i :: 0 <= i < |days| ==> Representable(days[i])) && AllStorable(st.noDraw)
  }

  lemma ReadyTail(days: seq<CivilDate>, st: RunState)
    requires days != [] && (forall i :: 0 <= i < |days| ==> Representable(days[i])) && AllStorable(st.noDraw)
    ensures Ready(days[1..], st)
  {
    assert forall i :: 0 <= i < |days| - 1 ==> days[1..][i] == days[i + 1];
  }

  /** A settled first day hands the run on to the remaining days, and counts as one settled day. */
  lemma ProcessCons(days: seq<CivilDate>, st: RunState, fetch: CivilDate -> FetchResult, order: NumberOrder)
    requires Ready(days, st) && days != [] && !Fatal(fetch(days[0]), order)
    ensures StepDay(days[0], st, fetch, order).Go?
    ensures var next := StepDay(days[0], st, fetch, order).next;
      && Ready(days[1..], next)
      && Process(days, st, fetch, order) == Process(days[1..], next, fetch, order)
      && Settled(days, fetch, order) == 1 + Settled(days[1..], fetch, order)
  {
    StepHalt(days[0], st, fetch, order);
    ReadyTail(days, StepDay(days[0], st, fetch, order).next);
  }

  lemma AppendAssoc<T>(a: seq<T>, b: seq<T>, c: seq<T>)
    ensures a + (b + c) == (a + b) + c
  {
  }

  lemma PrefixCons<T>(xs: seq<T>, k: nat)
    requires 0 < k <= |xs|
    ensures xs[..k] == [xs[0]] + xs[1..][..k - 1]
  {
  }

  /** A day stops the run exactly when its answer is fatal, and then names itself and its cause. */
  lemma StepHalt(d: CivilDate, st: RunState, fetch: CivilDate -> FetchResult, order: NumberOrder)
    requires Representable(d) && AllStorable(st.noDraw)
    ensures StepDay(d, st, fetch, order).Stop? <==> Fatal(fetch(d), order)
    ensures Fatal(fetch(d), order) ==>
      StepDay(d, st, fetch, order).halt ==
        Aborted(d, if fetch(d).Failed? then FetchFailed else Rejected(ValidateRecord(fetch(d).data).error))
  {
  }

  /** A settled day changes the list only by `addDate`, and only on an explicit "no draw". */
  lemma StepNoDraw(d: CivilDate, st: RunState, fetch: CivilDate -> FetchResult, order: NumberOrder)
    requires Representable(d) && AllStorable(st.noDraw) && !Fatal(fetch(d), order)
    ensures StepDay(d, st, fetch, order).Go?
    ensures StepDay(d, st, fetch, order).next.noDraw ==
      if fetch(d).NoDraw? then AddDate(st.noDraw, Day(d)) else st.noDraw
  {
  }

  /** A settled day pushes its record, if it has one, onto `markSixes`. */
  lemma StepSaved(d: CivilDate, st: RunState, fetch: CivilDate -> FetchResult, order: NumberOrder)
    requires Representable(d) && AllStorable(st.noDraw) && !Fatal(fetch(d), order)
    ensures StepDay(d, st, fetch, order).Go?
    ensures StepDay(d, st, fetch, order).next.saved ==
      st.saved + (if SavedRecord(fetch(d), order).Some? then [SavedRecord(fetch(d), order).value] else [])
  {
  }

  /** A settled day leaves the no-draw file reading back as the list. */
  lemma StepPersists(d: CivilDate, st: RunState, fetch: CivilDate -> FetchResult, order: NumberOrder)
    requires Representable(d) && AllStorable(st.noDraw) && !Fatal(fetch(d), order)
    requires LoadNoDrawDates(st.noDrawFile) == Ok(st.noDraw)
    ensures StepDay(d, st, fetch, order).Go?
    ensures LoadNoDrawDates(StepDay(d, st, fetch, order).next.noDrawFile) == Ok(StepDay(d, st, fetch, order).next.noDraw)
  {
    if fetch(d).NoDraw? {
      ParseAllSaveFormat(AddDate(st.noDraw, Day(d)));
    }
  }

  /**
   * The run stops exactly at the first fatal day, and says why: it
   * completes iff no day is fatal; otherwise the halt names that day and
   * its cause (the adapter failure, or the `validate` error of the record).
   */
  lemma {:induction false} ProcessHalt(days: seq<CivilDate>, st: RunState, fetch: CivilDate -> FetchResult, order: NumberOrder)
    requires Ready(days, st)
    ensures var run := Process(days, st, fetch, order); var k := Settled(days, fetch, order);
      (run.halt == Completed <==> k == |days|)
      && (k < |days| ==> run.halt == Aborted(days[k],
            if fetch(days[k]).Failed? then FetchFailed else Rejected(ValidateRecord(fetch(days[k]).data).error)))
    decreases |days|
  {
    if days != [] {
      StepHalt(days[0], st, fetch, order);
      if !Fatal(fetch(days[0]), order) {
        var next := StepDay(days[0], st, fetch, order).next;
        ReadyTail(days, next);
        ProcessHalt(days[1..], next, fetch, order);
      }
    }
  }

  /** Some day among the first `k` answered "no draw" and is the moment `m`. */
  predicate AddedWithin(days: seq<CivilDate>, k: nat, fetch: CivilDate -> FetchResult, m: Moment)
    requires k <= |days|
  {
    exists i :: 0 <= i < k && fetch(days[i]).NoDraw? && m == Day(days[i])
  }

  lemma AddedWithinTail(days: seq<CivilDate>, k: nat, fetch: CivilDate -> FetchResult, m: Moment)
    requires 0 < k <= |days|
    ensures AddedWithin(days, k, fetch, m) <==>
      (fetch(days[0]).NoDraw? && m == Day(days[0])) || AddedWithin(days[1..], k - 1, fetch, m)
  {
    if AddedWithin(days, k, fetch, m) && !(fetch(days[0]).NoDraw? && m == Day(days[0])) {
      var i :| 0 <= i < k && fetch(days[i]).NoDraw? && m == Day(days[i]);
      assert days[1..][i - 1] == days[i];
    }
    if AddedWithin(days[1..], k - 1, fetch, m) {
      var i :| 0 <= i < k - 1 && fetch(days[1..][i]).NoDraw? && m == Day(days[1..][i]);
      assert days[1..][i] == days[i + 1];
    }
  }

  /**
   * The no-draw list keeps what it had, in place, and gains exactly the
   * days settled with an explicit "no draw" answer: never a failed day, a
   * day with a record, or a day after the stop.
   */
  lemma ProcessNoDraw(days: seq<CivilDate>, st: RunState, fetch: CivilDate -> FetchResult, order: NumberOrder)
    requires Ready(days, st)
    ensures var list := Process(days, st, fetch, order).state.noDraw; var k := Settled(days, fetch, order);
      |st.noDraw| <= |list| && list[..|st.noDraw|] == st.noDraw
      && forall m :: m in list <==> m in st.noDraw || AddedWithin(days, k, fetch, m)
  {
    ProcessKeepsList(days, st, fetch, order);
    ProcessAddsSettled(days, st, fetch, order);
  }

  /** The run only ever appends to the no-draw list. */
  lemma {:induction false} ProcessKeepsList(days: seq<CivilDate>, st: RunState, fetch: CivilDate -> FetchResult, order: NumberOrder)
    requires Ready(days, st)
    ensures var list := Process(days, st, fetch, order).state.noDraw;
      |st.noDraw| <= |list| && list[..|st.noDraw|] == st.noDraw
    decreases |days|
  {
    if days != [] && !Fatal(fetch(days[0]), order) {
      var d := days[0];
      ProcessCons(days, st, fetch, order);
      var next := StepDay(d, st, fetch, order).next;
      StepNoDraw(d, st, fetch, order);
      AddDateDay(st.noDraw, d);
      ProcessKeepsList(days[1..], next, fetch, order);
      var fin := Process(days[1..], next, fetch, order).state.noDraw;
      PrefixOfPrefix(st.noDraw, next.noDraw, fin);
    }
  }

  lemma PrefixOfPrefix<T>(a: seq<T>, b: seq<T>, c: seq<T>)
    requires |a| <= |b| && b[..|a|] == a
    requires |b| <= |c| && c[..|b|] == b
    ensures |a| <= |c| && c[..|a|] == a
  {
    assert c[..|a|] == c[..|b|][..|a|];
  }

  /** A moment is in the list after the run iff it was before or a settled day added it. */
  lemma {:induction false} ProcessAddsSettled(days: seq<CivilDate>, st: RunState, fetch: CivilDate -> FetchResult, order: NumberOrder)
    requires Ready(days, st)
    ensures var list := Process(days, st, fetch, order).state.noDraw; var k := Settled(days, fetch, order);
      forall m :: m in list <==> m in st.noDraw || AddedWithin(days, k, fetch, m)
    decreases |days|
  {
    var k := Settled(days, fetch, order);
    if days != [] && !Fatal(fetch(days[0]), order) {
      var d := days[0];
      ProcessCons(days, st, fetch, order);
      var next := StepDay(d, st, fetch, order).next;
      StepNoDraw(d, st, fetch, order);
      AddDateDay(st.noDraw, d);
      ProcessAddsSettled(days[1..], next, fetch, order);
      var fin := Process(days[1..], next, fetch, order).state.noDraw;
      forall m ensures m in fin <==> m in st.noDraw || AddedWithin(days, k, fetch, m) {
        AddedWithinTail(days, k, fetch, m);
      }
    } else {
      forall m ensures !AddedWithin(days, k, fetch, m) {
      }
    }
  }

  /**
   * Abort without rollback: whenever the run stops, the no-draw file reads
   * back as the list in memory, since the list is written after every
   * single addition (and untouched when nothing was added).
   */
  lemma {:induction false} ProcessPersists(days: seq<CivilDate>, st: RunState, fetch: CivilDate -> FetchResult, order: NumberOrder)
    requires Ready(days, st)
    requires LoadNoDrawDates(st.noDrawFile) == Ok(st.noDraw)
    ensures var fin := Process(days, st, fetch, order).state;
      LoadNoDrawDates(fin.noDrawFile) == Ok(fin.noDraw)
    decreases |days|
  {
    if days != [] && !Fatal(fetch(days[0]), order) {
      var next := StepDay(days[0], st, fetch, order).next;
      StepPersists(days[0], st, fetch, order);
      ReadyTail(days, next);
      ProcessPersists(days[1..], next, fetch, order);
    }
  }

  /** One settled day in front: its record, if any, comes before those of the days after it. */
  lemma SavedStep(days: seq<CivilDate>, st: RunState, next: RunState, fetch: CivilDate -> FetchResult, order: NumberOrder)
    requires Ready(days, st) && days != [] && !Fatal(fetch(days[0]), order)
    requires StepDay(days[0], st, fetch, order) == Go(next)
    requires Process(days[1..], next, fetch, order).state.saved ==
      next.saved + FoundRecords(days[1..][..Settled(days[1..], fetch, order)], fetch, order)
    ensures Process(days, st, fetch, order).state.saved ==
      st.saved + FoundRecords(days[..Settled(days, fetch, order)], fetch, order)
  {
    ProcessCons(days, st, fetch, order);
    StepSaved(days[0], st, fetch, order);
    var k := Settled(days, fetch, order);
    FoundRecordsPrefix(days, k, fetch, order);
    var head := SavedRecord(fetch(days[0]), order);
    var rest := FoundRecords(days[1..][..k - 1], fetch, order);
    AppendAssoc(st.saved, if head.Some? then [head.value] else [], rest);
  }

  /** `markSixes` is exactly the records of the settled days that had one, in the order processed. */
  lemma {:induction false} ProcessSaved(days: seq<CivilDate>, st: RunState, fetch: CivilDate -> FetchResult, order: NumberOrder)
    requires Ready(days, st)
    ensures Process(days, st, fetch, order).state.saved == st.saved + FoundRecords(days[..Settled(days, fetch, order)], fetch, order)
    decreases |days|
  {
    var k := Settled(days, fetch, order);
    if days != [] && !Fatal(fetch(days[0]), order) {
      ProcessCons(days, st, fetch, order);
      var next := StepDay(days[0], st, fetch, order).next;
      ProcessSaved(days[1..], next, fetch, order);
      SavedStep(days, st, next, fetch, order);
    } else {
      assert days[..k] == [];
    }
  }

  /** The legacy fetch resolves, after a complete run, to the records of every missing day that had one. */
  lemma LegacyResult(store_records: map<string, DrawData>, file: NoDrawFile, first: CivilDate, today: CivilDate,
                     fetch: CivilDate -> FetchResult)
    requires Representable(first) && Representable(today)
    requires LoadNoDrawDates(file).Ok?
    ensures var list := LoadNoDrawDates(file).value;
      var missing := MissingFor(first, today, list, store_records, RecordContent);
      var run := RunFrom(first, today, store_records, file, fetch, LegacyScript);
      run.halt == Completed ==> run.state.saved == FoundRecords(missing, fetch, Numeric)
  {
    var list := LoadNoDrawDates(file).value;
    var missing := MissingFor(first, today, list, store_records, RecordContent);
    ProcessSaved(missing, RunState(list, store_records, file, []), fetch, Numeric);
    ProcessHalt(missing, RunState(list, store_records, file, []), fetch, Numeric);
    assert missing[..|missing|] == missing;
  }

  /**
   * An adapter whose records carry a date but no `id`, as the scraper behind
   * lib/hkjc/fetch.js answers (`{date, number, result}`).
   */
  ghost predicate Idless(fetch: CivilDate -> FetchResult)
  {
    forall c :: fetch(c).Found? ==> fetch(c).data.date != "" && fetch(c).data.id == ""
  }

  /** With such an adapter every record found is fatal: `validate` throws 'missing draw number'. */
  lemma IdlessFatal(fetch: CivilDate -> FetchResult, c: CivilDate, order: NumberOrder)
    requires Idless(fetch)
    ensures Fatal(fetch(c), order) <==> !fetch(c).NoDraw?
    ensures fetch(c).Found? ==> ValidateRecord(fetch(c).data) == Err(MissingId)
  {
  }

  /** Such an adapter never gets a record saved: the store and `markSixes` stay as they were. */
  lemma {:induction false} ProcessIdless(days: seq<CivilDate>, st: RunState, fetch: CivilDate -> FetchResult, order: NumberOrder)
    requires Ready(days, st) && Idless(fetch)
    ensures Process(days, st, fetch, order).state.saved == st.saved
    ensures Process(days, st, fetch, order).state.records == st.records
    decreases |days|
  {
    if days != [] {
      StepHalt(days[0], st, fetch, order);
      IdlessFatal(fetch, days[0], order);
      if !Fatal(fetch(days[0]), order) {
        ProcessCons(days, st, fetch, order);
        ProcessIdless(days[1..], StepDay(days[0], st, fetch, order).next, fetch, order);
      }
    }
  }

  /**
   * The legacy fetch with the repository's own scraper: nothing is ever
   * saved; the run completes only when every missing day is a no-draw day,
   * and otherwise stops at the first other day, with 'missing draw number'
   * when that day had a draw.
   */
  lemma LegacyAdapterRejected(first: CivilDate, today: CivilDate, records: map<string, DrawData>, file: NoDrawFile,
                              fetch: CivilDate -> FetchResult)
    requires Representable(first) && Representable(today)
    requires LoadNoDrawDates(file).Ok? && Idless(fetch)
    ensures var missing := MissingFor(first, today, LoadNoDrawDates(file).value, records, RecordContent);
      var run := RunFrom(first, today, records, file, fetch, LegacyScript);
      && run.state.saved == []
      && run.state.records == records
      && (run.halt == Completed <==> forall i :: 0 <= i < |missing| ==> fetch(missing[i]).NoDraw?)
      && (forall k :: 0 <= k < |missing| && !fetch(missing[k]).NoDraw? && (forall i :: 0 <= i < k ==> fetch(missing[i]).NoDraw?) ==>
            run.halt == Aborted(missing[k], if fetch(missing[k]).Failed? then FetchFailed else Rejected(MissingId)))
  {
    var list := LoadNoDrawDates(file).value;
    var missing := MissingFor(first, today, list, records, RecordContent);
    var st := RunState(list, records, file, []);
    ProcessIdless(missing, st, fetch, Numeric);
    ProcessIdlessHalt(missing, st, fetch, Numeric);
  }

  /** With such an adapter the run stops at the first day that is not a no-draw day. */
  lemma ProcessIdlessHalt(days: seq<CivilDate>, st: RunState, fetch: CivilDate -> FetchResult, order: NumberOrder)
    requires Ready(days, st) && Idless(fetch)
    ensures var run := Process(days, st, fetch, order);
      && (run.halt == Completed <==> forall i :: 0 <= i < |days| ==> fetch(days[i]).NoDraw?)
      && (forall k :: 0 <= k < |days| && !fetch(days[k]).NoDraw? && (forall i :: 0 <= i < k ==> fetch(days[i]).NoDraw?) ==>
            run.halt == Aborted(days[k], if fetch(days[k]).Failed? then FetchFailed else Rejected(MissingId)))
  {
    ProcessHalt(days, st, fetch, order);
    var n := Settled(days, fetch, order);
    forall i | 0 <= i < |days| ensures Fatal(fetch(days[i]), order) <==> !fetch(days[i]).NoDraw? {
      IdlessFatal(fetch, days[i], order);
    }
    if n < |days| {
      IdlessFatal(fetch, days[n], order);
    }
  }

  /* ---------- Resuming ---------- */

  /** The adapter answers for the day it was asked about: a record found for `c` is dated `c`. */
  ghost predicate Faithful(fetch: CivilDate -> FetchResult)
  {
    forall c :: Representable(c) && fetch(c).Found? ==> fetch(c).data.date == FormatYMD(c)
  }

  /** `fetchRecord` as the adapter, over the date ranges cached so far and the feed. */
  function CacheAdapter(ranges: seq<DateRange>, getJSON: Query -> Option<seq<Entry>>): CivilDate -> FetchResult
    requires forall i :: 0 <= i < |ranges| ==> RangeValid(ranges[i])
  {
    c => if Valid(c) then FetchSpec(ranges, c, getJSON) else Failed
  }

  /**
   * `fetchRecord` is faithful whatever the cache holds and whatever the feed
   * returns: the record it finds is the entry whose `DD/MM/YYYY` date is the
   * day asked for, and `normalize` rewrites that date as the day's `YYYY-MM-DD`.
   */
  lemma CacheAdapterFaithful(ranges: seq<DateRange>, getJSON: Query -> Option<seq<Entry>>)
    requires forall i :: 0 <= i < |ranges| ==> RangeValid(ranges[i])
    ensures Faithful(CacheAdapter(ranges, getJSON))
  {
    var fetch := CacheAdapter(ranges, getJSON);
    forall c | Representable(c) && fetch(c).Found? ensures fetch(c).data.date == FormatYMD(c) {
      var entries := getJSON(QueryOf(RangeFor(ranges, c))).value;
      LookupFoundDate(entries, c);
    }
  }

  /** Every stored record sits in the file its own date names, as `save` writes it. */
  predicate Consistent(records: map<string, DrawData>)
  {
    forall f :: f in records ==> FileName(records[f].date) == f
  }

  /** The days a run skips: the no-draw days and the stored days. */
  function Known(list: seq<Moment>, records: map<string, DrawData>, source: DateSource): set<CivilDate>
  {
    DaysOf(list) + FetchedDates(records, source)
  }

  lemma FileNameInjective(a: string, b: string)
    requires FileName(a) == FileName(b)
    ensures a == b
  {
    assert a == FileName(a)[..|a|];
  }

  lemma NoDotInFormatYMD(c: CivilDate)
    requires Valid(c)
    ensures '.' !in FormatYMD(c)
  {
    var y, m, d := FixedDigits(c.year, 4), FixedDigits(c.month, 2), FixedDigits(c.day, 2);
    var s := FormatYMD(c);
    assert s == y + "-" + m + "-" + d;
    forall i | 0 <= i < |s| ensures s[i] != '.' {
      if i < 4 { assert s[i] == y[i]; }
      else if 5 <= i < 7 { assert s[i] == m[i - 5]; }
      else if 8 <= i { assert s[i] == d[i - 8]; }
    }
  }

  /** The file `save` writes for day `c` names `c`, read either way. */
  lemma StoredDayOfSave(rec: DrawData, c: CivilDate, source: DateSource)
    requires Representable(c) && rec.date == FormatYMD(c)
    ensures Reader(source)(FileName(rec.date), rec) == Some(c)
  {
    ParseFormatYMD(c);
    NoDotInFormatYMD(c);
    DateOfFileNameFileName(rec.date);
  }

  /** Overwriting a file of a consistent directory with a record of the same date, or any file when the name decides, names the same day. */
  lemma StoredDayOverwrite(records: map<string, DrawData>, rec: DrawData, source: DateSource)
    requires source == RecordContent ==> Consistent(records)
    requires FileName(rec.date) in records
    ensures Reader(source)(FileName(rec.date), rec) == Reader(source)(FileName(rec.date), records[FileName(rec.date)])
  {
    if source == RecordContent {
      FileNameInjective(records[FileName(rec.date)].date, rec.date);
    }
  }

  /** Writing a file that names `c` over one that named the same, or a new one, adds exactly `c`. */
  lemma ReadDaysUpdate(records: map<string, DrawData>, key: string, rec: DrawData, c: CivilDate,
                       read: (string, DrawData) -> Option<CivilDate>)
    requires read(key, rec) == Some(c)
    requires key in records ==> read(key, records[key]) == Some(c)
    ensures ReadDays(records[key := rec], read) == ReadDays(records, read) + {c}
  {
    var after := records[key := rec];
    forall x ensures x in ReadDays(after, read) <==> x in ReadDays(records, read) || x == c {
      if x in ReadDays(records, read) {
        var f :| f in records && read(f, records[f]) == Some(x);
        assert f in after && read(f, after[f]) == Some(x);
      }
      if x in ReadDays(after, read) && x != c {
        var f :| f in after && read(f, after[f]) == Some(x);
        assert f != key && read(f, records[f]) == Some(x);
      }
      if x == c {
        assert key in after && read(key, after[key]) == Some(c);
      }
    }
  }

  /** Saving the record of day `c` adds exactly `c` to the stored days and keeps the directory consistent. */
  lemma SaveAddsDay(records: map<string, DrawData>, rec: DrawData, c: CivilDate, source: DateSource)
    requires Representable(c) && rec.date == FormatYMD(c)
    requires source == RecordContent ==> Consistent(records)
    ensures FetchedDates(records[FileName(rec.date) := rec], source) == FetchedDates(records, source) + {c}
    ensures Consistent(records) ==> Consistent(records[FileName(rec.date) := rec])
  {
    StoredDayOfSave(rec, c, source);
    if FileName(rec.date) in records {
      StoredDayOverwrite(records, rec, source);
    }
    ReadDaysUpdate(records, FileName(rec.date), rec, c, Reader(source));
  }

  /** A day without a draw joins the no-draw days; the directory is untouched. */
  lemma StepKnownNoDraw(d: CivilDate, st: RunState, fetch: CivilDate -> FetchResult, order: NumberOrder, source: DateSource)
    requires Representable(d) && AllStorable(st.noDraw) && fetch(d).NoDraw?
    ensures StepDay(d, st, fetch, order).Go?
    ensures var next := StepDay(d, st, fetch, order).next;
      next.records == st.records && DaysOf(next.noDraw) == DaysOf(st.noDraw) + {d}
  {
    AddDateDay(st.noDraw, d);
  }

  /** A day with an accepted record joins the stored days, provided the adapter is faithful; the list is untouched. */
  lemma StepKnownFound(d: CivilDate, st: RunState, fetch: CivilDate -> FetchResult, order: NumberOrder, source: DateSource)
    requires Representable(d) && AllStorable(st.noDraw) && Faithful(fetch)
    requires fetch(d).Found? && Prepared(fetch(d).data, order).Ok?
    requires source == RecordContent ==> Consistent(st.records)
    ensures StepDay(d, st, fetch, order).Go?
    ensures var next := StepDay(d, st, fetch, order).next;
      next.noDraw == st.noDraw
      && FetchedDates(next.records, source) == FetchedDates(st.records, source) + {d}
      && (Consistent(st.records) ==> Consistent(next.records))
  {
    var rec := Prepared(fetch(d).data, order).value;
    PreparedDate(fetch, d, order);
    assert StepDay(d, st, fetch, order).next.records == st.records[FileName(rec.date) := rec];
    SaveAddsDay(st.records, rec, d, source);
  }

  /** The record a faithful adapter finds for a day is dated that day once prepared. */
  lemma PreparedDate(fetch: CivilDate -> FetchResult, d: CivilDate, order: NumberOrder)
    requires Representable(d) && Faithful(fetch)
    requires fetch(d).Found? && Prepared(fetch(d).data, order).Ok?
    ensures Prepared(fetch(d).data, order).value.date == FormatYMD(d)
  {
  }

  lemma UnionGrows(a: set<CivilDate>, a': set<CivilDate>, b: set<CivilDate>, b': set<CivilDate>, d: CivilDate)
    requires (a' == a + {d} && b' == b) || (a' == a && b' == b + {d})
    ensures a' + b' == (a + b) + {d}
  {
  }

  /** A settled day joins the known days, and nothing else does, provided the adapter is faithful. */
  lemma StepKnown(d: CivilDate, st: RunState, fetch: CivilDate -> FetchResult, order: NumberOrder, source: DateSource)
    requires Representable(d) && AllStorable(st.noDraw) && !Fatal(fetch(d), order) && Faithful(fetch)
    requires source == RecordContent ==> Consistent(st.records)
    ensures StepDay(d, st, fetch, order).Go?
    ensures var next := StepDay(d, st, fetch, order).next;
      Known(next.noDraw, next.records, source) == Known(st.noDraw, st.records, source) + {d}
  {
    var next := StepDay(d, st, fetch, order).next;
    if fetch(d).NoDraw? {
      StepKnownNoDraw(d, st, fetch, order, source);
    } else {
      StepKnownFound(d, st, fetch, order, source);
    }
    UnionGrows(DaysOf(st.noDraw), DaysOf(next.noDraw), FetchedDates(st.records, source), FetchedDates(next.records, source), d);
  }

  /** A settled day keeps a consistent directory consistent, provided the adapter is faithful. */
  lemma StepConsistent(d: CivilDate, st: RunState, fetch: CivilDate -> FetchResult, order: NumberOrder)
    requires Representable(d) && AllStorable(st.noDraw) && !Fatal(fetch(d), order) && Faithful(fetch)
    requires Consistent(st.records)
    ensures StepDay(d, st, fetch, order).Go?
    ensures Consistent(StepDay(d, st, fetch, order).next.records)
  {
    if fetch(d).Found? {
      StepKnownFound(d, st, fetch, order, RecordContent);
    }
  }

  /**
   * After the run the skipped days are those skipped before plus exactly
   * the settled days, provided the adapter is faithful; the directory stays
   * consistent.
   */
  lemma ProcessCovers(days: seq<CivilDate>, st: RunState, fetch: CivilDate -> FetchResult,
                      order: NumberOrder, source: DateSource)
    requires Ready(days, st) && Faithful(fetch)
    requires source == RecordContent ==> Consistent(st.records)
    ensures var fin := Process(days, st, fetch, order).state; var k := Settled(days, fetch, order);
      Known(fin.noDraw, fin.records, source) == Known(st.noDraw, st.records, source) + Elements(days[..k])
      && (Consistent(st.records) ==> Consistent(fin.records))
  {
    ProcessKnown(days, st, fetch, order, source);
    if Consistent(st.records) {
      ProcessConsistent(days, st, fetch, order);
    }
  }

  /** A faithful adapter keeps a consistent directory consistent through the run. */
  lemma {:induction false} ProcessConsistent(days: seq<CivilDate>, st: RunState, fetch: CivilDate -> FetchResult,
                                             order: NumberOrder)
    requires Ready(days, st) && Faithful(fetch) && Consistent(st.records)
    ensures Consistent(Process(days, st, fetch, order).state.records)
    decreases |days|
  {
    if days != [] && !Fatal(fetch(days[0]), order) {
      ProcessCons(days, st, fetch, order);
      StepConsistent(days[0], st, fetch, order);
      ProcessConsistent(days[1..], StepDay(days[0], st, fetch, order).next, fetch, order);
    }
  }

  /** One settled day in front adds that day to what is known. */
  lemma KnownStep(days: seq<CivilDate>, st: RunState, next: RunState, fetch: CivilDate -> FetchResult,
                  order: NumberOrder, source: DateSource)
    requires Ready(days, st) && Faithful(fetch) && days != [] && !Fatal(fetch(days[0]), order)
    requires source == RecordContent ==> Consistent(st.records)
    requires StepDay(days[0], st, fetch, order) == Go(next)
    requires var fin := Process(days[1..], next, fetch, order).state; var k := Settled(days[1..], fetch, order);
      Known(fin.noDraw, fin.records, source) == Known(next.noDraw, next.records, source) + Elements(days[1..][..k])
    ensures var fin := Process(days, st, fetch, order).state; var k := Settled(days, fetch, order);
      Known(fin.noDraw, fin.records, source) == Known(st.noDraw, st.records, source) + Elements(days[..k])
  {
    var k := Settled(days, fetch, order);
    ProcessCons(days, st, fetch, order);
    PrefixCons(days, k);
    ElementsCons(days[0], days[1..][..k - 1]);
    StepKnown(days[0], st, fetch, order, source);
  }

  /** The known days grow by exactly the settled days. */
  lemma {:induction false} ProcessKnown(days: seq<CivilDate>, st: RunState, fetch: CivilDate -> FetchResult,
                                        order: NumberOrder, source: DateSource)
    requires Ready(days, st) && Faithful(fetch)
    requires source == RecordContent ==> Consistent(st.records)
    ensures var fin := Process(days, st, fetch, order).state; var k := Settled(days, fetch, order);
      Known(fin.noDraw, fin.records, source) == Known(st.noDraw, st.records, source) + Elements(days[..k])
    decreases |days|
  {
    var k := Settled(days, fetch, order);
    if days != [] && !Fatal(fetch(days[0]), order) {
      ProcessCons(days, st, fetch, order);
      var next := StepDay(days[0], st, fetch, order).next;
      if source == RecordContent {
        StepConsistent(days[0], st, fetch, order);
      }
      ProcessKnown(days[1..], next, fetch, order, source);
      KnownStep(days, st, next, fetch, order, source);
    } else {
      assert days[..k] == [];
    }
  }

  /** Two strictly ascending lists of the same days are the same list. */
  lemma {:induction false} AscendingUnique(a: seq<CivilDate>, b: seq<CivilDate>)
    requires Pairwise(a, Before) && Pairwise(b, Before)
    requires forall x :: x in a <==> x in b
    ensures a == b
  {
    assert NoDup(a) && NoDup(b);
    assert Elements(a) == Elements(b);
    NoDupCardinality(a);
    NoDupCardinality(b);
    if a != [] {
      assert a[0] in b;
      var j :| 0 <= j < |b| && b[j] == a[0];
      assert b[0] in a;
      var i :| 0 <= i < |a| && a[i] == b[0];
      assert i == 0 || j == 0;
      assert a[0] == b[0];
      forall x ensures x in a[1..] <==> x in b[1..] {
        if x in a[1..] {
          var p :| 1 <= p < |a| && a[p] == x;
          assert Before(a[0], a[p]);
          assert x in b;
        }
        if x in b[1..] {
          var p :| 1 <= p < |b| && b[p] == x;
          assert Before(b[0], b[p]);
          assert x in a;
        }
      }
      AscendingUnique(a[1..], b[1..]);
      assert a == [a[0]] + a[1..] && b == [b[0]] + b[1..];
    }
  }

  /**
   * Resuming: the no-draw file read back gives the list in memory, and the
   * days a second run on the same day would try are exactly the days this
   * run did not get to — the stop day first — in the same order.
   */
  lemma Resume(first: CivilDate, today: CivilDate, records: map<string, DrawData>, file: NoDrawFile,
               fetch: CivilDate -> FetchResult, script: Script)
    requires Representable(first) && Representable(today)
    requires LoadNoDrawDates(file).Ok? && Faithful(fetch)
    requires script.source == RecordContent ==> Consistent(records)
    ensures var list := LoadNoDrawDates(file).value;
      var missing := MissingFor(first, today, list, records, script.source);
      var k := Settled(missing, fetch, script.order);
      var fin := RunFrom(first, today, records, file, fetch, script).state;
      LoadNoDrawDates(fin.noDrawFile) == Ok(fin.noDraw)
      && MissingFor(first, today, fin.noDraw, fin.records, script.source) == missing[k..]
  {
    var list := LoadNoDrawDates(file).value;
    var st := RunState(list, records, file, []);
    var missing := MissingFor(first, today, list, records, script.source);
    var k := Settled(missing, fetch, script.order);
    var fin := Process(missing, st, fetch, script.order).state;
    ProcessPersists(missing, st, fetch, script.order);
    ProcessCovers(missing, st, fetch, script.order, script.source);
    var range := DatesBetween(first, today);
    DatesBetweenAscending(first, today);
    DifferenceByPrefix(range, Known(list, records, script.source), k);
  }

  /**
   * Dropping from an ascending list the first `k` survivors of a
   * difference leaves the rest of the survivors.
   */
  lemma DifferenceByPrefix(range: seq<CivilDate>, known: set<CivilDate>, k: nat)
    requires Pairwise(range, Before)
    requires k <= |DifferenceBy(range, known)|
    ensures var missing := DifferenceBy(range, known);
      DifferenceBy(range, known + Elements(missing[..k])) == missing[k..]
  {
    var missing := DifferenceBy(range, known);
    var again := DifferenceBy(range, known + Elements(missing[..k]));
    DifferenceByPairwise(range, known, Before);
    DifferenceByPairwise(range, known + Elements(missing[..k]), Before);
    forall q, p | 0 <= q < k <= p < |missing| ensures missing[q] != missing[p] {
      assert Before(missing[q], missing[p]);
    }
    assert Pairwise(missing[k..], Before) by {
      assert forall i :: 0 <= i < |missing| - k ==> missing[k..][i] == missing[k + i];
    }
    AscendingUnique(again, missing[k..]);
  }

  /** After a complete run, a second run on the same day finds nothing missing and changes nothing. */
  lemma CompletedRunConverges(first: CivilDate, today: CivilDate, records: map<string, DrawData>, file: NoDrawFile,
                              fetch: CivilDate -> FetchResult, later: CivilDate -> FetchResult, script: Script)
    requires Representable(first) && Representable(today)
    requires LoadNoDrawDates(file).Ok? && Faithful(fetch)
    requires script.source == RecordContent ==> Consistent(records)
    requires RunFrom(first, today, records, file, fetch, script).halt == Completed
    ensures var fin := RunFrom(first, today, records, file, fetch, script).state;
      RunFrom(first, today, fin.records, fin.noDrawFile, later, script)
        == Run(RunState(fin.noDraw, fin.records, fin.noDrawFile, []), Completed)
  {
    var list := LoadNoDrawDates(file).value;
    var missing := MissingFor(first, today, list, records, script.source);
    ProcessHalt(missing, RunState(list, records, file, []), fetch, script.order);
    Resume(first, today, records, file, fetch, script);
  }

  /**
   * After a run every day of the range is in exactly one place: skipped
   * (no draw, or stored) or still missing.
   */
  lemma Partition(first: CivilDate, today: CivilDate, records: map<string, DrawData>, file: NoDrawFile,
                  fetch: CivilDate -> FetchResult, script: Script, c: CivilDate)
    requires Representable(first) && Representable(today) && Valid(c)
    requires LoadNoDrawDates(file).Ok? && Faithful(fetch)
    requires script.source == RecordContent ==> Consistent(records)
    requires SameOrBefore(first, c) && Before(c, today)
    ensures var list := LoadNoDrawDates(file).value;
      var missing := MissingFor(first, today, list, records, script.source);
      var k := Settled(missing, fetch, script.order);
      var fin := RunFrom(first, today, records, file, fetch, script).state;
      (c in Known(fin.noDraw, fin.records, script.source)) != (c in missing[k..])
  {
    var fin := RunFrom(first, today, records, file, fetch, script).state;
    Resume(first, today, records, file, fetch, script);
    MissingDatesSpec(first, today, fin.noDraw, FetchedDates(fin.records, script.source));
  }

  /**
   * The day a run stops at is neither added to the no-draw list nor stored:
   * a later run tries it again.
   */
  lemma AbortedDayNotSettled(first: CivilDate, today: CivilDate, records: map<string, DrawData>, file: NoDrawFile,
                             fetch: CivilDate -> FetchResult, script: Script)
    requires Representable(first) && Representable(today)
    requires LoadNoDrawDates(file).Ok? && Faithful(fetch)
    requires script.source == RecordContent ==> Consistent(records)
    requires RunFrom(first, today, records, file, fetch, script).halt.Aborted?
    ensures var run := RunFrom(first, today, records, file, fetch, script);
      run.halt.day !in Known(run.state.noDraw, run.state.records, script.source)
      && MissingFor(first, today, run.state.noDraw, run.state.records, script.source) != []
      && MissingFor(first, today, run.state.noDraw, run.state.records, script.source)[0] == run.halt.day
  {
    var list := LoadNoDrawDates(file).value;
    var missing := MissingFor(first, today, list, records, script.source);
    var run := RunFrom(first, today, records, file, fetch, script);
    var k := Settled(missing, fetch, script.order);
    ProcessHalt(missing, RunState(list, records, file, []), fetch, script.order);
    Resume(first, today, records, file, fetch, script);
    assert missing[k..][0] == run.halt.day;
    MissingDatesSpec(first, today, run.state.noDraw, FetchedDates(run.state.records, script.source));
    assert run.halt.day in missing[k..];
  }

  /**
   * If no day was both excluded and stored before the run, none is after it:
   * a day settles either as "no draw" or as a record, never both.
   */
  lemma {:induction false} ProcessKeepsDisjoint(days: seq<CivilDate>, st: RunState, fetch: CivilDate -> FetchResult,
                                                order: NumberOrder, source: DateSource)
    requires Ready(days, st) && Faithful(fetch)
    requires source == RecordContent ==> Consistent(st.records)
    requires NoDup(days)
    requires forall i :: 0 <= i < |days| ==> days[i] !in Known(st.noDraw, st.records, source)
    requires DaysOf(st.noDraw) !! FetchedDates(st.records, source)
    ensures var fin := Process(days, st, fetch, order).state;
      DaysOf(fin.noDraw) !! FetchedDates(fin.records, source)
    decreases |days|
  {
    if days != [] && !Fatal(fetch(days[0]), order) {
      var d := days[0];
      var next := StepDay(d, st, fetch, order).next;
      StepDisjoint(d, st, fetch, order, source);
      if source == RecordContent {
        StepConsistent(d, st, fetch, order);
      }
      assert forall i :: 0 <= i < |days| - 1 ==> days[1..][i] == days[i + 1] && days[i + 1] != d;
      ReadyTail(days, next);
      ProcessKeepsDisjoint(days[1..], next, fetch, order, source);
    }
  }

  /** A new day settles on one side only, so the two kinds of known day stay apart. */
  lemma StepDisjoint(d: CivilDate, st: RunState, fetch: CivilDate -> FetchResult, order: NumberOrder, source: DateSource)
    requires Representable(d) && AllStorable(st.noDraw) && !Fatal(fetch(d), order) && Faithful(fetch)
    requires source == RecordContent ==> Consistent(st.records)
    requires d !in Known(st.noDraw, st.records, source)
    requires DaysOf(st.noDraw) !! FetchedDates(st.records, source)
    ensures StepDay(d, st, fetch, order).Go?
    ensures var next := StepDay(d, st, fetch, order).next;
      DaysOf(next.noDraw) !! FetchedDates(next.records, source)
      && Known(next.noDraw, next.records, source) == Known(st.noDraw, st.records, source) + {d}
  {
    StepKnown(d, st, fetch, order, source);
    if fetch(d).NoDraw? {
      StepKnownNoDraw(d, st, fetch, order, source);
    } else {
      StepKnownFound(d, st, fetch, order, source);
    }
  }
}
