/**
 * Calendar days as the scripts use them through `moment`: a Gregorian
 * (year, month, day), compared chronologically (`isBefore`, `isSame`,
 * `isSameOrAfter`), advanced by one day (`add(1, 'days')`) or by months with
 * end-of-month clamping (`add(3, 'months')`), and rendered or parsed in the
 * three formats the repository uses: `YYYY-MM-DD` (record files and the
 * no-draw list), `DD/MM/YYYY` (the results feed) and `YYYYMMDD` (the query).
 * Time of day, time zones and daylight saving are not part of the model:
 * every moment the scripts compare is the start of a local day.
 */
module Calendar {
  import opened Collections
  import opened Strings

  datatype CivilDate = CivilDate(year: int, month: int, day: int)

  predicate IsLeapYear(y: int)
  {
    y % 4 == 0 && (y % 100 != 0 || y % 400 == 0)
  }

  function DaysInMonth(y: int, m: int): (n: int)
    requires 1 <= m <= 12
    ensures 28 <= n <= 31
  {
    if m == 2 then (if IsLeapYear(y) then 29 else 28)
    else if m == 4 || m == 6 || m == 9 || m == 11 then 30
    else 31
  }

  /** A day that exists in the Gregorian calendar (moment's `isValid()`). */
  predicate Valid(c: CivilDate)
  {
    0 <= c.year && 1 <= c.month <= 12 && 1 <= c.day <= DaysInMonth(c.year, c.month)
  }

  /** A day whose year fits the four-digit `YYYY` token. */
  predicate Representable(c: CivilDate)
  {
    Valid(c) && c.year <= 9999
  }

  /** `a.isBefore(b)` on start-of-day moments. */
  predicate Before(a: CivilDate, b: CivilDate)
  {
    a.year < b.year
    || (a.year == b.year && (a.month < b.month || (a.month == b.month && a.day < b.day)))
  }

  /** `a.isSameOrBefore(b)`. */
  predicate SameOrBefore(a: CivilDate, b: CivilDate)
  {
    a == b || Before(a, b)
  }

  /** `date.add(1, 'days')`. */
  function NextDay(c: CivilDate): (r: CivilDate)
    requires Valid(c)
    ensures Valid(r) && Before(c, r)
  {
    if c.day < DaysInMonth(c.year, c.month) then CivilDate(c.year, c.month, c.day + 1)
    else if c.month < 12 then CivilDate(c.year, c.month + 1, 1)
    else CivilDate(c.year + 1, 1, 1)
  }

  /** No day lies strictly between a day and the next one. */
  lemma NextDayIsSuccessor(c: CivilDate, x: CivilDate)
    requires Valid(c) && Valid(x) && Before(c, x)
    ensures SameOrBefore(NextDay(c), x)
  {
  }

  /** `date.clone().add(n, 'months')`: the day is clamped to the length of the target month. */
  function AddMonths(c: CivilDate, n: nat): (r: CivilDate)
    requires Valid(c)
    ensures Valid(r)
    ensures n > 0 ==> Before(c, r)
  {
    var total := c.year * 12 + (c.month - 1) + n;
    var y := total / 12;
    var m := total % 12 + 1;
    var d := if c.day <= DaysInMonth(y, m) then c.day else DaysInMonth(y, m);
    assert n > 0 ==> y > c.year || (y == c.year && m > c.month);
    CivilDate(y, m, d)
  }

  /** Format `YYYY-MM-DD`: record file names and the no-draw list. */
  function FormatYMD(c: CivilDate): (s: string)
    requires Valid(c)
    ensures |s| == 10
  {
    FixedDigits(c.year, 4) + "-" + FixedDigits(c.month, 2) + "-" + FixedDigits(c.day, 2)
  }

  /** Format `DD/MM/YYYY`: the draw date of the results feed. */
  function FormatDMY(c: CivilDate): (s: string)
    requires Valid(c)
    ensures |s| == 10
  {
    FixedDigits(c.day, 2) + "/" + FixedDigits(c.month, 2) + "/" + FixedDigits(c.year, 4)
  }

  /** Format `YYYYMMDD`: the `sd` and `ed` parameters of the results query. */
  function FormatCompact(c: CivilDate): (s: string)
    requires Valid(c)
    ensures |s| == 8
  {
    FixedDigits(c.year, 4) + FixedDigits(c.month, 2) + FixedDigits(c.day, 2)
  }

  /** Reading `YYYY-MM-DD`: the three digit fields, and `None` for anything else or a day that does not exist. */
  function ParseYMD(s: string): (r: Option<CivilDate>)
    ensures r.Some? ==> Representable(r.value)
  {
    if |s| == 10 && s[4] == '-' && s[7] == '-'
       && AllDigits(s[..4]) && AllDigits(s[5..7]) && AllDigits(s[8..])
    then
      var c := CivilDate(DigitsValue(s[..4]), DigitsValue(s[5..7]), DigitsValue(s[8..]));
      FourDigitsBound(s[..4]);
      if Valid(c) then Some(c) else None
    else None
  }

  lemma FourDigitsBound(s: string)
    requires AllDigits(s) && |s| == 4
    ensures DigitsValue(s) <= 9999
  {
    DigitsValueBound(s);
    assert Pow10(4) == 10000;
  }

  /** The three digit fields of a `DD/MM/YYYY` string, whether or not they name a real day. */
  function ParseDMY(s: string): Option<CivilDate>
  {
    if |s| == 10 && s[2] == '/' && s[5] == '/'
       && AllDigits(s[..2]) && AllDigits(s[3..5]) && AllDigits(s[6..])
    then Some(CivilDate(DigitsValue(s[6..]), DigitsValue(s[3..5]), DigitsValue(s[..2])))
    else None
  }

  /**
   * `moment(s, 'DD/MM/YYYY').format('YYYY-MM-DD')` for a string of that
   * shape: the fields rearranged, or moment's `"Invalid date"` when they
   * name no real day. Other shapes, which moment's forgiving parser may
   * still read, give `None`.
   */
  function DmyToYmd(s: string): (r: Option<string>)
    ensures r.Some? <==> ParseDMY(s).Some?
  {
    match ParseDMY(s)
    case None => None
    case Some(c) => Some(if Valid(c) then FormatYMD(c) else "Invalid date")
  }

  /** Rendering a day as `YYYY-MM-DD` and reading it back gives the day. */
  lemma ParseFormatYMD(c: CivilDate)
    requires Representable(c)
    ensures ParseYMD(FormatYMD(c)) == Some(c)
  {
    var s := FormatYMD(c);
    assert s[..4] == FixedDigits(c.year, 4);
    assert s[5..7] == FixedDigits(c.month, 2);
    assert s[8..] == FixedDigits(c.day, 2);
    assert Pow10(4) == 10000 && Pow10(2) == 100;
    DigitsValueFixedDigits(c.year, 4);
    DigitsValueFixedDigits(c.month, 2);
    DigitsValueFixedDigits(c.day, 2);
  }

  /** Two different days never share a `YYYY-MM-DD` rendering. */
  lemma FormatYMDInjective(a: CivilDate, b: CivilDate)
    requires Representable(a) && Representable(b)
    requires FormatYMD(a) == FormatYMD(b)
    ensures a == b
  {
    ParseFormatYMD(a);
    ParseFormatYMD(b);
  }

  /** A feed date of a representable day becomes that day's `YYYY-MM-DD`. */
  lemma DmyToYmdFormatDMY(c: CivilDate)
    requires Representable(c)
    ensures DmyToYmd(FormatDMY(c)) == Some(FormatYMD(c))
  {
    var s := FormatDMY(c);
    assert s[..2] == FixedDigits(c.day, 2);
    assert s[3..5] == FixedDigits(c.month, 2);
    assert s[6..] == FixedDigits(c.year, 4);
    assert Pow10(4) == 10000 && Pow10(2) == 100;
    DigitsValueFixedDigits(c.year, 4);
    DigitsValueFixedDigits(c.month, 2);
    DigitsValueFixedDigits(c.day, 2);
  }

  /** Reformatting keeps the day, month and year fields character for character. */
  lemma DmyToYmdKeepsFields(s: string)
    requires ParseDMY(s).Some? && Valid(ParseDMY(s).value)
    ensures DmyToYmd(s) == Some(s[6..] + "-" + s[3..5] + "-" + s[..2])
  {
    FixedDigitsOfDigitsValue(s[6..]);
    FixedDigitsOfDigitsValue(s[3..5]);
    FixedDigitsOfDigitsValue(s[..2]);
  }

  /** Comparing zero-padded fields as strings compares their values first. */
  lemma {:induction false} LexLeFixedDigits(a: nat, b: nat, w: nat, s: string, t: string)
    requires a < Pow10(w) && b < Pow10(w)
    ensures LexLe(FixedDigits(a, w) + s, FixedDigits(b, w) + t) <==> a < b || (a == b && LexLe(s, t))
  {
    if w == 0 {
      assert FixedDigits(a, w) + s == s && FixedDigits(b, w) + t == t;
    } else {
      var da, db := DigitChar(a % 10), DigitChar(b % 10);
      assert FixedDigits(a, w) + s == FixedDigits(a / 10, w - 1) + ([da] + s);
      assert FixedDigits(b, w) + t == FixedDigits(b / 10, w - 1) + ([db] + t);
      LexLeFixedDigits(a / 10, b / 10, w - 1, [da] + s, [db] + t);
      assert ([da] + s)[1..] == s && ([db] + t)[1..] == t;
      assert da < db <==> a % 10 < b % 10;
      assert a == 10 * (a / 10) + a % 10 && b == 10 * (b / 10) + b % 10;
    }
  }

  /** `YYYYMMDD` strings compare as the days they render. */
  lemma LexLeFormatCompact(a: CivilDate, b: CivilDate)
    requires Representable(a) && Representable(b)
    ensures LexLe(FormatCompact(a), FormatCompact(b)) <==> SameOrBefore(a, b)
  {
    assert Pow10(4) == 10000 && Pow10(2) == 100;
    var ma, mb := FixedDigits(a.month, 2), FixedDigits(b.month, 2);
    var da, db := FixedDigits(a.day, 2), FixedDigits(b.day, 2);
    assert FormatCompact(a) == FixedDigits(a.year, 4) + (ma + da);
    assert FormatCompact(b) == FixedDigits(b.year, 4) + (mb + db);
    LexLeFixedDigits(a.year, b.year, 4, ma + da, mb + db);
    LexLeFixedDigits(a.month, b.month, 2, da, db);
    assert da == da + [] && db == db + [];
    LexLeFixedDigits(a.day, b.day, 2, [], []);
  }
}
