/**
 * The Mark Six draw record (`MarkSix` in the three model files): its four
 * fields, the `<date>.json` file it is stored in, the checks `validate`
 * makes before a save, and the ordering `sort` gives its numbers. The three
 * variants of the class differ only in that ordering, so the class carries
 * it as a constant.
 */
module Records {
  import opened Collections
  import opened Strings
  import opened Sorting

  /**
   * The `special` field as JavaScript may hold it: a number, `NaN` (what
   * `toNumber` gives for text it cannot read), missing, or a value of
   * another type read from a hand-edited file.
   */
  datatype Special = Num(value: int) | NaN | Absent | NonNumber

  /** The plain record: what `init` receives, `normalize` produces and a file holds. */
  datatype DrawData = DrawData(date: string, id: string, numbers: seq<int>, special: Special)

  /** The four errors `validate` throws, in the order it checks for them. */
  datatype ValidationError =
    | MissingDate
    | MissingId
    | WrongCount(count: nat)
    | BadSpecial(special: Special)

  /** `special && _.isNumber(special)`: a number other than 0 and NaN. */
  predicate SpecialAcceptable(s: Special)
  {
    s.Num? && s.value != 0
  }

  /** What a record must satisfy to be saved. */
  predicate Acceptable(d: DrawData)
  {
    d.date != "" && d.id != "" && |d.numbers| == 6 && SpecialAcceptable(d.special)
  }

  /** `validate()`: the record itself when acceptable, otherwise the first failing check. */
  function ValidateRecord(d: DrawData): (r: Result<DrawData, ValidationError>)
    ensures r.Ok? <==> Acceptable(d)
    ensures r.Ok? ==> r.value == d
  {
    if d.date == "" then Err(MissingDate)
    else if d.id == "" then Err(MissingId)
    else if |d.numbers| != 6 then Err(WrongCount(|d.numbers|))
    else if !SpecialAcceptable(d.special) then Err(BadSpecial(d.special))
    else Ok(d)
  }

  /** Each error names the check that failed, and the earlier checks passed. */
  lemma ValidateError(d: DrawData)
    ensures ValidateRecord(d) == Err(MissingDate) <==> d.date == ""
    ensures ValidateRecord(d) == Err(MissingId) <==> d.date != "" && d.id == ""
    ensures ValidateRecord(d).Err? && ValidateRecord(d).error.WrongCount? <==>
      d.date != "" && d.id != "" && |d.numbers| != 6
    ensures ValidateRecord(d).Err? && ValidateRecord(d).error.WrongCount? ==> ValidateRecord(d).error.count == |d.numbers|
    ensures ValidateRecord(d) == Err(BadSpecial(d.special)) <==>
      d.date != "" && d.id != "" && |d.numbers| == 6 && !SpecialAcceptable(d.special)
  {
  }

  /** The `filename` getter: the date followed by `.json`. */
  function FileName(date: string): (r: string)
    ensures |r| == |date| + 5 && r[..|date|] == date
  {
    date + ".json"
  }

  /** The date part of a record file name as `getFetchedDates` in scripts/fetch.ts takes it: the text before the first `.`. */
  function DateOfFileName(name: string): string
  {
    Split(name, '.')[0]
  }

  /** A date without a `.` is read back from its file name. */
  lemma DateOfFileNameFileName(date: string)
    requires '.' !in date
    ensures DateOfFileName(FileName(date)) == date
  {
    SplitPrefix(date, ".json", '.');
  }

  /** How a variant of `sort` orders the numbers. */
  datatype NumberOrder =
    | Numeric        // `_.sortBy(numbers)`, `numbers.sort((a, b) => a - b)`
    | Lexicographic  // `numbers.sort()`: by the numbers' decimal renderings

  predicate NumericLe(a: int, b: int)
  {
    a <= b
  }

  /** The default `Array.prototype.sort` order: `String(a) <= String(b)`. */
  predicate StringLe(a: int, b: int)
  {
    LexLe(IntToString(a), IntToString(b))
  }

  function LeOf(order: NumberOrder): (int, int) -> bool
  {
    match order
    case Numeric => NumericLe
    case Lexicographic => StringLe
  }

  lemma LeOfTotalPreorder(order: NumberOrder)
    ensures TotalPreorder(LeOf(order))
  {
    if order == Lexicographic {
      forall a, b ensures StringLe(a, b) || StringLe(b, a) {
        LexLeTotal(IntToString(a), IntToString(b));
      }
      forall a, b, c | StringLe(a, b) && StringLe(b, c) ensures StringLe(a, c) {
        LexLeTransitive(IntToString(a), IntToString(b), IntToString(c));
      }
    }
  }

  /** The numbers as `sort` leaves them. Both JavaScript sorts used are stable. */
  function SortNumbers(numbers: seq<int>, order: NumberOrder): (r: seq<int>)
    ensures multiset(r) == multiset(numbers)
  {
    SortBy(numbers, LeOf(order))
  }

  /** `sort` orders the numbers: ascending by value, or ascending by decimal string. */
  lemma SortNumbersOrdered(numbers: seq<int>, order: NumberOrder)
    ensures Pairwise(SortNumbers(numbers, order), LeOf(order))
  {
    LeOfTotalPreorder(order);
    SortBySorted(numbers, LeOf(order));
  }

  /** `sort` leaves numbers that are already in order as they are. */
  lemma SortNumbersIdempotent(numbers: seq<int>, order: NumberOrder)
    requires Pairwise(numbers, LeOf(order))
    ensures SortNumbers(numbers, order) == numbers
  {
    SortBySortedIdempotent(numbers, LeOf(order));
  }

  /** Any ordered arrangement of the numbers is what `sort` gives, when the order tells the numbers apart. */
  lemma SortNumbersDetermined(numbers: seq<int>, expected: seq<int>, order: NumberOrder)
    requires multiset(numbers) == multiset(expected)
    requires Pairwise(expected, LeOf(order))
    requires forall x, y :: x in expected && y in expected && LeOf(order)(x, y) && LeOf(order)(y, x) ==> x == y
    ensures SortNumbers(numbers, order) == expected
  {
    SortNumbersOrdered(numbers, order);
    SortedUnique(SortNumbers(numbers, order), expected, LeOf(order));
  }

  /**
   * For natural numbers both orders tell the numbers apart, so any ordered
   * arrangement of them is the one `sort` gives.
   */
  lemma SortNaturalsDetermined(numbers: seq<int>, expected: seq<int>, order: NumberOrder)
    requires multiset(numbers) == multiset(expected)
    requires Pairwise(expected, LeOf(order))
    requires forall i :: 0 <= i < |expected| ==> expected[i] >= 0
    ensures SortNumbers(numbers, order) == expected
  {
    forall x, y | x in expected && y in expected && LeOf(order)(x, y) && LeOf(order)(y, x) ensures x == y {
      if order == Lexicographic {
        StringLeAntisymmetric(x, y);
      }
    }
    SortNumbersDetermined(numbers, expected, order);
  }

  /** The draw of the examples below, and its numbers in ascending order. */
  lemma ExampleDraw()
    ensures multiset([23, 4, 49, 1, 17, 30]) == multiset([1, 4, 17, 23, 30, 49])
  {
    DrawHalves();
    assert [1, 4, 17, 23, 30, 49] == [1, 4, 17] + [23, 30, 49];
    assert multiset{23, 4, 49} + multiset{1, 17, 30} == multiset{1, 4, 17} + multiset{23, 30, 49};
  }

  /** The same numbers with 4 and 49 moved behind 30. */
  lemma ExampleDrawDecimal()
    ensures multiset([23, 4, 49, 1, 17, 30]) == multiset([1, 17, 23, 30, 4, 49])
  {
    DrawHalves();
    assert [1, 17, 23, 30, 4, 49] == [1, 17, 23] + [30, 4, 49];
    assert multiset{23, 4, 49} + multiset{1, 17, 30} == multiset{1, 17, 23} + multiset{30, 4, 49};
  }

  lemma DrawHalves()
    ensures multiset([23, 4, 49, 1, 17, 30]) == multiset{23, 4, 49} + multiset{1, 17, 30}
  {
    assert [23, 4, 49, 1, 17, 30] == [23, 4, 49] + [1, 17, 30];
  }

  /** The comparator `a - b` sorts a draw by value. */
  lemma SortNumericExample()
    ensures SortNumbers([23, 4, 49, 1, 17, 30], Numeric) == [1, 4, 17, 23, 30, 49]
  {
    ExampleDraw();
    NumericOrderOfExample();
    ExampleNaturals();
    SortNaturalsDetermined([23, 4, 49, 1, 17, 30], [1, 4, 17, 23, 30, 49], Numeric);
  }

  /** The default sort compares the same draw as strings, so 4 comes after 30 and 17 before 23. */
  lemma SortDecimalStringExample()
    ensures SortNumbers([23, 4, 49, 1, 17, 30], Lexicographic) == [1, 17, 23, 30, 4, 49]
  {
    ExampleDrawDecimal();
    DecimalOrderOfExample();
    ExampleNaturals();
    SortNaturalsDetermined([23, 4, 49, 1, 17, 30], [1, 17, 23, 30, 4, 49], Lexicographic);
  }

  lemma ExampleNaturals()
    ensures forall i :: 0 <= i < |[1, 4, 17, 23, 30, 49]| ==> [1, 4, 17, 23, 30, 49][i] >= 0
    ensures forall i :: 0 <= i < |[1, 17, 23, 30, 4, 49]| ==> [1, 17, 23, 30, 4, 49][i] >= 0
  {
  }

  lemma NumericOrderOfExample()
    ensures Pairwise([1, 4, 17, 23, 30, 49], LeOf(Numeric))
  {
    var e := [1, 4, 17, 23, 30, 49];
    forall i, j | 0 <= i < j < |e| ensures NumericLe(e[i], e[j]) {
      assert e[i] <= e[j];
    }
  }

  lemma DecimalOrderOfExample()
    ensures Pairwise([1, 17, 23, 30, 4, 49], LeOf(Lexicographic))
  {
    var e := [1, 17, 23, 30, 4, 49];
    ExampleStrings();
    assert LexLe("1", "17") && LexLe("17", "23") && LexLe("23", "30") && LexLe("30", "4") && LexLe("4", "49");
    assert StringLe(e[0], e[1]) && StringLe(e[1], e[2]) && StringLe(e[2], e[3]) && StringLe(e[3], e[4]) && StringLe(e[4], e[5]);
    forall i, j | 0 <= i < j < |e| ensures StringLe(e[i], e[j]) {
      StringLeChain(e, i, j);
    }
  }

  /** Neighbours in string order make the whole sequence ordered. */
  lemma {:induction false} StringLeChain(xs: seq<int>, i: nat, j: nat)
    requires i < j < |xs|
    requires forall k :: 0 <= k < |xs| - 1 ==> StringLe(xs[k], xs[k + 1])
    ensures StringLe(xs[i], xs[j])
    decreases j - i
  {
    if i + 1 < j {
      StringLeChain(xs, i + 1, j);
      LexLeTransitive(IntToString(xs[i]), IntToString(xs[i + 1]), IntToString(xs[j]));
    }
  }

  lemma ExampleStrings()
    ensures IntToString(1) == "1" && IntToString(4) == "4" && IntToString(17) == "17"
    ensures IntToString(23) == "23" && IntToString(30) == "30" && IntToString(49) == "49"
  {
    assert DecimalString(1) == "1" && DecimalString(4) == "4";
    assert DecimalString(17) == DecimalString(1) + "7";
    assert DecimalString(23) == DecimalString(2) + "3";
    assert DecimalString(30) == DecimalString(3) + "0";
    assert DecimalString(49) == DecimalString(4) + "9";
  }

  /** Different natural numbers have different decimal renderings, so the string order tells them apart. */
  lemma StringLeAntisymmetric(a: int, b: int)
    requires a >= 0 && b >= 0
    requires StringLe(a, b) && StringLe(b, a)
    ensures a == b
  {
    LexLeAntisymmetric(IntToString(a), IntToString(b));
    ToNumberDecimalString(a);
    ToNumberDecimalString(b);
  }

  /** `presave()` on a record: validation first, then the numbers sorted; nothing else changes. */
  function Prepared(d: DrawData, order: NumberOrder): (r: Result<DrawData, ValidationError>)
    ensures r.Ok? <==> Acceptable(d)
    ensures r.Err? ==> r == ValidateRecord(d)
    ensures r.Ok? ==> r.value.date == d.date && r.value.id == d.id && r.value.special == d.special
    ensures r.Ok? ==> multiset(r.value.numbers) == multiset(d.numbers)
  {
    match ValidateRecord(d)
    case Err(e) => Err(e)
    case Ok(v) => Ok(v.(numbers := SortNumbers(v.numbers, order)))
  }

  /** A prepared record is acceptable, ordered, and preparing it again changes nothing. */
  lemma PreparedIdempotent(d: DrawData, order: NumberOrder)
    requires Prepared(d, order).Ok?
    ensures Acceptable(Prepared(d, order).value)
    ensures Pairwise(Prepared(d, order).value.numbers, LeOf(order))
    ensures Prepared(Prepared(d, order).value, order) == Prepared(d, order)
  {
    var p := Prepared(d, order).value;
    SortNumbersOrdered(d.numbers, order);
    SortNumbersIdempotent(p.numbers, order);
  }

  /** What sits in the no-draw list's location on disk. */
  datatype NoDrawFile =
    | Missing                          // reading fails with ENOENT
    | Unreadable(code: string)         // reading fails with another error code
    | Contents(dates: seq<string>)     // the JSON array of `YYYY-MM-DD` strings

  /**
   * The data directory: the record files, by file name, and the no-draw
   * list. A record file holds the record as the JSON serialisation
   * `save` writes; the model keeps the record itself.
   */
  class Store {
    var records: map<string, DrawData>
    var noDrawFile: NoDrawFile

    constructor (records: map<string, DrawData>, noDrawFile: NoDrawFile)
      ensures this.records == records && this.noDrawFile == noDrawFile
    {
      this.records := records;
      this.noDrawFile := noDrawFile;
    }

    /** `writeFileAsync(filePath, json)` of a record. */
    method WriteRecord(name: string, d: DrawData)
      modifies this
      ensures records == old(records)[name := d]
      ensures noDrawFile == old(noDrawFile)
    {
      records := records[name := d];
    }

    /** `writeFileAsync` of the no-draw list. */
    method WriteNoDrawFile(dates: seq<string>)
      modifies this
      ensures noDrawFile == Contents(dates)
      ensures records == old(records)
    {
      noDrawFile := Contents(dates);
    }
  }

  /** A `MarkSix` instance. */
  class MarkSix {
    var date: string
    var id: string
    var numbers: seq<int>
    var special: Special
    const order: NumberOrder

    /** `MarkSix.init(data)` / `new MarkSix(...)`: the four fields copied verbatim. */
    constructor Init(data: DrawData, order: NumberOrder)
      ensures Data() == data
      ensures this.order == order
    {
      date := data.date;
      id := data.id;
      numbers := data.numbers;
      special := data.special;
      this.order := order;
    }

    function Data(): DrawData
      reads this
    {
      DrawData(date, id, numbers, special)
    }

    /** `validate()`: reads the instance, changes nothing. */
    method Validate() returns (r: Result<DrawData, ValidationError>)
      ensures r == ValidateRecord(Data())
    {
      if date == "" {
        r := Err(MissingDate);
      } else if id == "" {
        r := Err(MissingId);
      } else if |numbers| != 6 {
        r := Err(WrongCount(|numbers|));
      } else if !SpecialAcceptable(special) {
        r := Err(BadSpecial(special));
      } else {
        r := Ok(Data());
      }
    }

    /** `sort()`: the numbers reordered in place. */
    method Sort()
      modifies this
      ensures numbers == SortNumbers(old(numbers), order)
      ensures date == old(date) && id == old(id) && special == old(special)
    {
      numbers := SortNumbers(numbers, order);
    }

    /** `presave()`: validation, then the sort; an invalid record is left untouched. */
    method Presave() returns (r: Result<DrawData, ValidationError>)
      modifies this
      ensures r == Prepared(old(Data()), order)
      ensures r.Ok? ==> Data() == r.value
      ensures r.Err? ==> Data() == old(Data())
    {
      var v := Validate();
      if v.Err? {
        return Err(v.error);
      }
      Sort();
      r := Ok(Data());
    }

    /** `save()`: presave, then the record is written to `<date>.json`; nothing is written when presave throws. */
    method Save(store: Store) returns (r: Result<DrawData, ValidationError>)
      modifies this, store
      ensures r == Prepared(old(Data()), order)
      ensures r.Ok? ==> Data() == r.value
      ensures r.Ok? ==> store.records == old(store.records)[FileName(date) := r.value]
      ensures r.Err? ==> store.records == old(store.records) && Data() == old(Data())
      ensures store.noDrawFile == old(store.noDrawFile)
    {
      r := Presave();
      if r.Ok? {
        store.WriteRecord(FileName(date), r.value);
      }
    }
  }
}
