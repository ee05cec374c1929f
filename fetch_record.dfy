/**
 * The fetch adapter of lib/fetchRecord.js and src/lib/fetchRecord.ts: for a
 * day, choose a query window from the cache of windows already asked for
 * (or open a new three-month window), ask the results feed for it, pick the
 * entry whose `DD/MM/YYYY` date is the day, and normalise that entry into a
 * record. The HTTP request is a parameter: a function from the query to the
 * entries returned, or `None` when the request fails.
 */
module FetchRecord {
  import opened Collections
  import opened Strings
  import opened Calendar
  import opened Records

  /** A results-feed entry (`IRecord`): draw date `DD/MM/YYYY`, draw id, numbers `a+b+...`, special number. */
  datatype Entry = Entry(date: string, id: string, no: string, sno: string)

  /** The query string parameters `sd` and `ed` (`YYYYMMDD`). */
  datatype Query = Query(sd: string, ed: string)

  /** A cached query window, inclusive at both ends. */
  datatype DateRange = DateRange(start: CivilDate, end: CivilDate)

  /** What a fetch of one day tells the caller. */
  datatype FetchResult =
    | Failed               // the request or the normalisation threw
    | NoDraw               // the feed has no entry for the day: `undefined`
    | Found(data: DrawData)

  /** `date.isSameOrAfter(start) && date.isSameOrBefore(end)`. */
  predicate Contains(r: DateRange, d: CivilDate)
  {
    SameOrBefore(r.start, d) && SameOrBefore(d, r.end)
  }

  predicate RangeValid(r: DateRange)
  {
    Valid(r.start) && Valid(r.end) && SameOrBefore(r.start, r.end)
  }

  /** `_.find(dateRanges, contains d)`: the index of the first cached window holding the day. */
  function FirstContaining(ranges: seq<DateRange>, d: CivilDate): (r: Option<nat>)
    ensures r.Some? ==> r.value < |ranges| && Contains(ranges[r.value], d)
    ensures r.Some? ==> forall j :: 0 <= j < r.value ==> !Contains(ranges[j], d)
    ensures r.None? ==> forall j :: 0 <= j < |ranges| ==> !Contains(ranges[j], d)
  {
    if ranges == [] then None
    else if Contains(ranges[0], d) then Some(0)
    else match FirstContaining(ranges[1..], d)
      case None => None
      case Some(i) => Some(i + 1)
  }

  /** The window a new day opens: from the day to three months later. */
  function NewRange(d: CivilDate): (r: DateRange)
    requires Valid(d)
    ensures RangeValid(r) && Contains(r, d)
  {
    DateRange(d, AddMonths(d, 3))
  }

  /** The window `getDateRange` answers with, for a given cache. */
  function RangeFor(ranges: seq<DateRange>, d: CivilDate): DateRange
    requires Valid(d)
  {
    match FirstContaining(ranges, d)
    case Some(i) => ranges[i]
    case None => NewRange(d)
  }

  /** The cache after `getDateRange`: unchanged on a hit, one window longer on a miss. */
  function CacheAfter(ranges: seq<DateRange>, d: CivilDate): seq<DateRange>
    requires Valid(d)
  {
    match FirstContaining(ranges, d)
    case Some(_) => ranges
    case None => ranges + [NewRange(d)]
  }

  /** The window always holds the day; a miss appends exactly that window and keeps the earlier ones. */
  lemma RangeForContains(ranges: seq<DateRange>, d: CivilDate)
    requires Valid(d)
    ensures Contains(RangeFor(ranges, d), d)
    ensures |CacheAfter(ranges, d)| <= |ranges| + 1
    ensures CacheAfter(ranges, d)[..|ranges|] == ranges
    ensures RangeFor(ranges, d) in CacheAfter(ranges, d)
    ensures FirstContaining(CacheAfter(ranges, d), d).Some?
  {
    if FirstContaining(ranges, d).None? {
      var after := ranges + [NewRange(d)];
      assert after[|ranges|] == NewRange(d);
      FirstContainingAppend(ranges, NewRange(d), d);
    }
  }

  lemma {:induction false} FirstContainingAppend(ranges: seq<DateRange>, r: DateRange, d: CivilDate)
    requires FirstContaining(ranges, d).None? && Contains(r, d)
    ensures FirstContaining(ranges + [r], d) == Some(|ranges|)
  {
    if ranges != [] {
      assert (ranges + [r])[1..] == ranges[1..] + [r];
      FirstContainingAppend(ranges[1..], r, d);
    } else {
      assert ranges + [r] == [r];
    }
  }

  /** Asking twice for the same day gives the same window and leaves the cache as the first call left it. */
  lemma CacheAfterIdempotent(ranges: seq<DateRange>, d: CivilDate)
    requires Valid(d)
    ensures CacheAfter(CacheAfter(ranges, d), d) == CacheAfter(ranges, d)
    ensures RangeFor(CacheAfter(ranges, d), d) == RangeFor(ranges, d)
  {
    if FirstContaining(ranges, d).None? {
      FirstContainingAppend(ranges, NewRange(d), d);
      assert (ranges + [NewRange(d)])[|ranges|] == NewRange(d);
    }
  }

  /** `getQuery`: the window's ends as `YYYYMMDD`. */
  function QueryOf(r: DateRange): Query
    requires RangeValid(r)
  {
    Query(FormatCompact(r.start), FormatCompact(r.end))
  }

  /** The query strings bracket the day's own `YYYYMMDD` in string order, so the feed's answer covers it. */
  lemma QueryBracketsDay(r: DateRange, d: CivilDate)
    requires RangeValid(r) && Contains(r, d)
    requires Representable(r.start) && Representable(r.end) && Representable(d)
    ensures LexLe(QueryOf(r).sd, FormatCompact(d)) && LexLe(FormatCompact(d), QueryOf(r).ed)
  {
    LexLeFormatCompact(r.start, d);
    LexLeFormatCompact(d, r.end);
  }

  /** lodash `toNumber` over the `+`-separated pieces: `None` when some piece is not a digit string. */
  function ParseNumbers(pieces: seq<string>): (r: Option<seq<int>>)
    ensures r.Some? <==> forall i :: 0 <= i < |pieces| ==> AllDigits(pieces[i])
    ensures r.Some? ==> |r.value| == |pieces|
    ensures r.Some? ==> forall i :: 0 <= i < |pieces| ==> r.value[i] == DigitsValue(pieces[i])
  {
    if pieces == [] then Some([])
    else
      var head, rest := ToNumber(pieces[0]), ParseNumbers(pieces[1..]);
      if head.None? then None
      else if rest.None? then
        var i :| 0 <= i < |pieces[1..]| && !AllDigits(pieces[1..][i]);
        assert !AllDigits(pieces[i + 1]);
        None
      else Some([head.value] + rest.value)
  }

  /**
   * `normalize`: the date rearranged to `YYYY-MM-DD`, the id copied, the
   * numbers split on `+` and read as decimals, the special number read as a
   * decimal. `None` marks an entry outside the model: a date not of the
   * shape `DD/MM/YYYY`, or a field that is not a digit string.
   */
  function Normalize(e: Entry): (r: Option<DrawData>)
    ensures r.Some? <==> DmyToYmd(e.date).Some? && AllDigits(e.sno) && ParseNumbers(Split(e.no, '+')).Some?
    ensures r.Some? ==> r.value.id == e.id && r.value.date == DmyToYmd(e.date).value
    ensures r.Some? ==> |r.value.numbers| == |Split(e.no, '+')| == multiset(e.no)['+'] + 1
    ensures r.Some? ==> forall i :: 0 <= i < |r.value.numbers| ==>
      r.value.numbers[i] == DigitsValue(Split(e.no, '+')[i])
    ensures r.Some? ==> r.value.special == Num(DigitsValue(e.sno))
  {
    SplitCount(e.no, '+');
    var pieces := Split(e.no, '+');
    var date, numbers, special := DmyToYmd(e.date), ParseNumbers(pieces), ToNumber(e.sno);
    if date.None? || special.None? || numbers.None? then None
    else Some(DrawData(date.value, e.id, numbers.value, Num(special.value)))
  }

  /** The feed entry of a draw: its day as `DD/MM/YYYY`, its numbers joined with `+`. */
  function FeedEntry(day: CivilDate, id: string, numbers: seq<nat>, special: nat): Entry
    requires Valid(day)
  {
    Entry(FormatDMY(day), id, Join(Map(numbers, DecimalString), '+'), DecimalString(special))
  }

  lemma {:induction false} ParseRenderedNumbers(numbers: seq<nat>)
    ensures ParseNumbers(Map(numbers, DecimalString)) == Some(numbers)
  {
    var pieces := Map(numbers, DecimalString);
    forall i | 0 <= i < |numbers| ensures DigitsValue(pieces[i]) == numbers[i] {
      ToNumberDecimalString(numbers[i]);
    }
    var r := ParseNumbers(pieces);
    assert r.Some?;
    assert r.value == numbers;
  }

  /** Normalising the feed entry of a draw gives the draw back, with its date as `YYYY-MM-DD`. */
  lemma NormalizeFeedEntry(day: CivilDate, id: string, numbers: seq<nat>, special: nat)
    requires Representable(day) && |numbers| >= 1
    ensures Normalize(FeedEntry(day, id, numbers, special)) == Some(DrawData(FormatYMD(day), id, numbers, Num(special)))
  {
    var pieces := Map(numbers, DecimalString);
    forall i | 0 <= i < |pieces| ensures '+' !in pieces[i] {
      assert AllDigits(pieces[i]);
    }
    SplitJoin(pieces, '+');
    ParseRenderedNumbers(numbers);
    ToNumberDecimalString(special);
    DmyToYmdFormatDMY(day);
  }

  /** `_.find(entries, ({date}) => formatted === date)`. */
  function FindEntry(entries: seq<Entry>, formatted: string): (r: Option<Entry>)
    ensures r.None? <==> forall i :: 0 <= i < |entries| ==> entries[i].date != formatted
    ensures r.Some? ==> r.value.date == formatted
    ensures r.Some? ==>
      exists i :: 0 <= i < |entries| && entries[i] == r.value && (forall j :: 0 <= j < i ==> entries[j].date != formatted)
  {
    if entries == [] then None
    else if entries[0].date == formatted then
      assert entries[0] == entries[0];
      Some(entries[0])
    else
      var r := FindEntry(entries[1..], formatted);
      assert forall i :: 1 <= i < |entries| ==> entries[i] == entries[1..][i - 1];
      if r.Some? then
        var i :| 0 <= i < |entries[1..]| && entries[1..][i] == r.value
          && (forall j :: 0 <= j < i ==> entries[1..][j].date != formatted);
        assert entries[i + 1] == r.value;
        r
      else r
  }

  /** What the adapter answers for a day, given the feed entries of its window. */
  function Lookup(entries: seq<Entry>, d: CivilDate): FetchResult
    requires Valid(d)
  {
    match FindEntry(entries, FormatDMY(d))
    case None => NoDraw
    case Some(e) =>
      match Normalize(e)
      case None => Failed
      case Some(data) => Found(data)
  }

  /** `undefined` exactly when no entry carries the day's `DD/MM/YYYY` date. */
  lemma LookupNoDraw(entries: seq<Entry>, d: CivilDate)
    requires Valid(d)
    ensures Lookup(entries, d) == NoDraw <==> forall i :: 0 <= i < |entries| ==> entries[i].date != FormatDMY(d)
  {
  }

  /** A record found for a day carries that day's `YYYY-MM-DD` date, which reads back as the day. */
  lemma LookupFoundDate(entries: seq<Entry>, d: CivilDate)
    requires Representable(d)
    requires Lookup(entries, d).Found?
    ensures Lookup(entries, d).data.date == FormatYMD(d)
    ensures ParseYMD(Lookup(entries, d).data.date) == Some(d)
  {
    DmyToYmdFormatDMY(d);
    ParseFormatYMD(d);
  }

  /** The whole adapter for one day, given the cache it starts from and the feed. */
  function FetchSpec(ranges: seq<DateRange>, d: CivilDate, getJSON: Query -> Option<seq<Entry>>): FetchResult
    requires Valid(d)
    requires forall i :: 0 <= i < |ranges| ==> RangeValid(ranges[i])
  {
    var r := RangeFor(ranges, d);
    match getJSON(QueryOf(r))
    case None => Failed
    case Some(entries) => Lookup(entries, d)
  }

  /** The module-level `dateRanges` (`history` in lib/fetchRecord.js) and the functions that use it. */
  class RangeCache {
    var ranges: seq<DateRange>

    ghost predicate Valid()
      reads this
    {
      forall i :: 0 <= i < |ranges| ==> RangeValid(ranges[i])
    }

    constructor ()
      ensures ranges == [] && Valid()
    {
      ranges := [];
    }

    /** `getDateRange`: the first cached window holding the day, or a new three-month window, cached. */
    method GetDateRange(d: CivilDate) returns (r: DateRange)
      requires Valid() && Calendar.Valid(d)
      modifies this
      ensures Valid()
      ensures r == RangeFor(old(ranges), d)
      ensures ranges == CacheAfter(old(ranges), d)
      ensures Contains(r, d) && RangeValid(r)
    {
      var i := 0;
      while i < |ranges|
        invariant 0 <= i <= |ranges|
        invariant forall j :: 0 <= j < i ==> !Contains(ranges[j], d)
      {
        if Contains(ranges[i], d) {
          assert FirstContaining(ranges, d) == Some(i);
          return ranges[i];
        }
        i := i + 1;
      }
      r := NewRange(d);
      ranges := ranges + [r];
    }

    /** `getQuery`. */
    method GetQuery(d: CivilDate) returns (q: Query)
      requires Valid() && Calendar.Valid(d)
      modifies this
      ensures Valid()
      ensures q == QueryOf(RangeFor(old(ranges), d))
      ensures ranges == CacheAfter(old(ranges), d)
    {
      var r := GetDateRange(d);
      q := Query(FormatCompact(r.start), FormatCompact(r.end));
    }

    /** The exported `fetchRecord(date)`. */
    method Fetch(d: CivilDate, getJSON: Query -> Option<seq<Entry>>) returns (result: FetchResult)
      requires Valid() && Calendar.Valid(d)
      modifies this
      ensures Valid()
      ensures result == FetchSpec(old(ranges), d, getJSON)
      ensures ranges == CacheAfter(old(ranges), d)
    {
      var query := GetQuery(d);
      var response := getJSON(query);
      if response.None? {
        return Failed;
      }
      var entry := FindEntry(response.value, FormatDMY(d));
      if entry.None? {
        return NoDraw;
      }
      var data := Normalize(entry.value);
      if data.None? {
        return Failed;
      }
      result := Found(data.value);
    }
  }
}
