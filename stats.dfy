/**
 * The frequency statistics over the stored draws: how often each number
 * and each special number was drawn, the tables ordered by frequency (by
 * count in the JavaScript scripts, by percentage in the TypeScript ones),
 * and the numbers of 1..49 that none of the ten latest draws contains.
 *
 * The scripts build their tables with `accumulate`, which finds the row of
 * a value with `_.find` and bumps it in place, or pushes a new row. That
 * table is the class `Table`; the value it ends with after a sequence of
 * values is the function `Tally`, and the lemmas say what a tally means:
 * one row per distinct value, in order of first occurrence, each counting
 * the value's multiplicity.
 */
module Stats {
  import opened Collections
  import opened Sorting
  import opened Strings
  import opened Records

  /** A row of a frequency table: a drawn value and how often it was drawn (`{number, count}`, `{num, count}`). */
  datatype Stat<K> = Stat(number: K, count: nat)

  /** The values of the rows, in row order. */
  function Keys<K>(table: seq<Stat<K>>): (r: seq<K>)
    ensures |r| == |table|
    ensures forall i :: 0 <= i < |table| ==> r[i] == table[i].number
  {
    Map(table, NumberOf)
  }

  function NumberOf<K>(s: Stat<K>): K
  {
    s.number
  }

  /** `_.find(table, {number: x})`: the position of the first row of `x`, if any. */
  function FindRow<K(==)>(table: seq<Stat<K>>, x: K): (r: Option<nat>)
    ensures r.None? <==> x !in Keys(table)
    ensures r.Some? ==> r.value < |table| && table[r.value].number == x
    ensures r.Some? ==> forall j :: 0 <= j < r.value ==> table[j].number != x
  {
    if table == [] then None
    else if table[0].number == x then Some(0)
    else
      match FindRow(table[1..], x)
      case None =>
        assert forall j :: 0 <= j < |table| ==> table[j].number != x by {
          assert forall j :: 1 <= j < |table| ==> table[j] == table[1..][j - 1];
        }
        None
      case Some(i) =>
        assert table[1..][i] == table[i + 1];
        Some(i + 1)
  }

  /** `accumulate(table, x)` on a table held as a value. */
  function Accumulated<K(==)>(table: seq<Stat<K>>, x: K): seq<Stat<K>>
  {
    match FindRow(table, x)
    case None => table + [Stat(x, 1)]
    case Some(i) => table[i := Stat(x, table[i].count + 1)]
  }

  /**
   * `accumulate` counts one more on the row of `x` or, when `x` has no row,
   * pushes a row `{x, 1}`. No other row changes, and a table with one row
   * per value keeps that shape.
   */
  lemma AccumulatedSpec<K>(table: seq<Stat<K>>, x: K)
    ensures var r := Accumulated(table, x);
      && (x !in Keys(table) ==> r == table + [Stat(x, 1)])
      && (x in Keys(table) ==> |r| == |table|)
      && Keys(r) == (if x in Keys(table) then Keys(table) else Keys(table) + [x])
      && (forall i :: 0 <= i < |table| && table[i].number != x ==> r[i] == table[i])
      && (NoDup(Keys(table)) ==>
        forall i :: 0 <= i < |table| && table[i].number == x ==> r[i] == Stat(x, table[i].count + 1))
      && (NoDup(Keys(table)) ==> NoDup(Keys(r)))
  {
    var r := Accumulated(table, x);
    match FindRow(table, x)
    case None =>
      assert Keys(r) == Keys(table) + [x];
    case Some(i) =>
      assert Keys(r) == Keys(table);
  }

  /** A frequency table that `accumulate` updates in place. */
  class Table<K(==)> {
    var rows: seq<Stat<K>>

    constructor ()
      ensures rows == []
    {
      rows := [];
    }

    /** `accumulate(this.rows, x)`: a linear search for the row of `x`, then an increment or a push. */
    method Accumulate(x: K)
      modifies this
      ensures rows == Accumulated(old(rows), x)
    {
      var i := 0;
      while i < |rows| && rows[i].number != x
        invariant 0 <= i <= |rows|
        invariant forall j :: 0 <= j < i ==> rows[j].number != x
      {
        i := i + 1;
      }
      if i == |rows| {
        assert x !in Keys(rows);
        rows := rows + [Stat(x, 1)];
      } else {
        assert FindRow(rows, x) == Some(i);
        rows := rows[i := Stat(x, rows[i].count + 1)];
      }
    }

    /** `_.each(values, v => accumulate(rows, v))`: a table that tallied `seen` goes on to tally `values`. */
    method AccumulateAll(values: seq<K>, ghost seen: seq<K>)
      requires rows == Tally(seen)
      modifies this
      ensures rows == Tally(seen + values)
    {
      var j := 0;
      TallyStart(seen, values);
      while j < |values|
        invariant 0 <= j <= |values|
        invariant rows == Tally(seen + values[..j])
      {
        TallyStep(seen, values, j);
        Accumulate(values[j]);
        j := j + 1;
      }
      TallyEnd(seen, values);
    }
  }

  /** The table `accumulate` leaves after seeing the values of `xs` in order, starting empty. */
  function Tally<K(==)>(xs: seq<K>): seq<Stat<K>>
  {
    if xs == [] then [] else Accumulated(Tally(xs[..|xs| - 1]), xs[|xs| - 1])
  }

  lemma TallySnoc<K>(xs: seq<K>, x: K)
    ensures Tally(xs + [x]) == Accumulated(Tally(xs), x)
  {
    assert (xs + [x])[..|xs|] == xs;
  }

  lemma TallyStart<K>(seen: seq<K>, values: seq<K>)
    ensures Tally(seen + values[..0]) == Tally(seen)
  {
    assert seen + values[..0] == seen;
  }

  lemma TallyStep<K>(seen: seq<K>, values: seq<K>, j: nat)
    requires j < |values|
    ensures Tally(seen + values[..j + 1]) == Accumulated(Tally(seen + values[..j]), values[j])
  {
    TallySnoc(seen + values[..j], values[j]);
    assert seen + values[..j] + [values[j]] == seen + values[..j + 1];
  }

  lemma TallyEnd<K>(seen: seq<K>, values: seq<K>)
    ensures Tally(seen + values[..|values|]) == Tally(seen + values)
  {
    assert values[..|values|] == values;
  }

  /** One row per distinct value, in order of first occurrence: the keys are `_.uniq(xs)`. */
  lemma {:induction false} TallyKeys<K(!new)>(xs: seq<K>)
    ensures Keys(Tally(xs)) == Uniq(xs)
  {
    if xs != [] {
      TallyKeys(xs[..|xs| - 1]);
    }
  }

  /** Every row counts how many times its value occurs in `xs`, and every value of `xs` has a row. */
  lemma {:induction false} TallyCounts<K(!new)>(xs: seq<K>)
    ensures forall x :: x in Keys(Tally(xs)) <==> x in xs
    ensures forall i :: 0 <= i < |Tally(xs)| ==> Tally(xs)[i].count == multiset(xs)[Tally(xs)[i].number]
  {
    if xs != [] {
      var init, x := xs[..|xs| - 1], xs[|xs| - 1];
      TallyKeys(init);
      TallyCounts(init);
      AccumulatedCounts(Tally(init), init, x);
      assert xs == init + [x];
    }
  }

  /** `accumulate` keeps a table counting the values seen when one more value is seen. */
  lemma AccumulatedCounts<K(!new)>(t: seq<Stat<K>>, seen: seq<K>, x: K)
    requires NoDup(Keys(t))
    requires forall y :: y in Keys(t) <==> y in seen
    requires forall i :: 0 <= i < |t| ==> t[i].count == multiset(seen)[t[i].number]
    ensures var r := Accumulated(t, x);
      && (forall y :: y in Keys(r) <==> y in seen + [x])
      && forall i :: 0 <= i < |r| ==> r[i].count == multiset(seen + [x])[r[i].number]
  {
    AccumulatedSpec(t, x);
    assert multiset(seen + [x]) == multiset(seen) + multiset{x};
    if x !in Keys(t) {
      assert multiset(seen)[x] == 0;
    }
  }

  /** The counts of a table added up. */
  function SumCounts<K>(table: seq<Stat<K>>): nat
  {
    if table == [] then 0 else table[0].count + SumCounts(table[1..])
  }

  lemma {:induction false} SumCountsAppend<K>(a: seq<Stat<K>>, b: seq<Stat<K>>)
    ensures SumCounts(a + b) == SumCounts(a) + SumCounts(b)
  {
    if a != [] {
      assert (a + b)[1..] == a[1..] + b;
      SumCountsAppend(a[1..], b);
    } else {
      assert a + b == b;
    }
  }

  lemma {:induction false} SumCountsUpdate<K>(table: seq<Stat<K>>, i: nat, s: Stat<K>)
    requires i < |table|
    ensures SumCounts(table[i := s]) == SumCounts(table) - table[i].count + s.count
  {
    if i > 0 {
      assert table[i := s][1..] == table[1..][i - 1 := s];
      SumCountsUpdate(table[1..], i - 1, s);
    }
  }

  /** The counts of a tally add up to the number of values seen. */
  lemma {:induction false} TallySum<K>(xs: seq<K>)
    ensures SumCounts(Tally(xs)) == |xs|
  {
    if xs != [] {
      var init, x := xs[..|xs| - 1], xs[|xs| - 1];
      TallySum(init);
      AccumulatedSum(Tally(init), x);
    }
  }

  /** `accumulate` adds one to the sum of the counts. */
  lemma AccumulatedSum<K>(t: seq<Stat<K>>, x: K)
    ensures SumCounts(Accumulated(t, x)) == SumCounts(t) + 1
  {
    match FindRow(t, x)
    case None =>
      SumCountsAppend(t, [Stat(x, 1)]);
      assert SumCounts([Stat(x, 1)]) == 1;
    case Some(i) =>
      assert Accumulated(t, x) == t[i := Stat(x, t[i].count + 1)];
      SumCountsUpdate(t, i, Stat(x, t[i].count + 1));
  }

  /** Reordering the rows keeps the sum of their counts. */
  lemma {:induction false} SumCountsPermutation<K>(a: seq<Stat<K>>, b: seq<Stat<K>>)
    requires multiset(a) == multiset(b)
    ensures SumCounts(a) == SumCounts(b)
    decreases |a|
  {
    if a == [] {
      assert |b| == |multiset(b)| == 0;
    } else {
      var x := a[0];
      var j := Match(a, b);
      var rest := b[..j] + b[j + 1..];
      SumCountsPermutation(a[1..], rest);
      SumCountsAppend(b[..j] + [x], b[j + 1..]);
      SumCountsAppend(b[..j], [x]);
      SumCountsAppend(b[..j], b[j + 1..]);
      assert SumCounts([x]) == x.count;
    }
  }

  /** The `_.each(values, accumulate)` loop of the TypeScript scripts, from an empty table. */
  method CountAll<K(==)>(xs: seq<K>) returns (rows: seq<Stat<K>>)
    ensures rows == Tally(xs)
  {
    var table := new Table<K>();
    table.AccumulateAll(xs, []);
    assert [] + xs == xs;
    rows := table.rows;
  }

  /** `_.flatMap(records, numbersOf)`: every record's numbers, record after record. */
  function Drawn<R>(records: seq<R>, numbersOf: R -> seq<int>): seq<int>
  {
    Flatten(Map(records, numbersOf))
  }

  lemma DrawnSnoc<R>(records: seq<R>, i: nat, numbersOf: R -> seq<int>)
    requires i < |records|
    ensures Drawn(records[..i + 1], numbersOf) == Drawn(records[..i], numbersOf) + numbersOf(records[i])
  {
    assert Map(records[..i + 1], numbersOf)[..i] == Map(records[..i], numbersOf);
  }

  lemma MapSnoc<R, K>(records: seq<R>, i: nat, f: R -> K)
    requires i < |records|
    ensures Map(records[..i + 1], f) == Map(records[..i], f) + [f(records[i])]
  {
  }

  /**
   * The loop of scripts/stats.js and lib/hkjc/stats.js: for each record,
   * `accumulate` each of its numbers into one table, then its special (or
   * extra) number into the other. Interleaving the two tables gives what
   * the TypeScript scripts get by tallying the flattened numbers and the
   * specials separately.
   */
  method CountDraws<R, K(==)>(records: seq<R>, numbersOf: R -> seq<int>, extraOf: R -> K)
    returns (numberRows: seq<Stat<int>>, extraRows: seq<Stat<K>>)
    ensures numberRows == Tally(Drawn(records, numbersOf))
    ensures extraRows == Tally(Map(records, extraOf))
  {
    var numbers := new Table<int>();
    var extra := new Table<K>();
    var i := 0;
    while i < |records|
      invariant 0 <= i <= |records|
      invariant numbers.rows == Tally(Drawn(records[..i], numbersOf))
      invariant extra.rows == Tally(Map(records[..i], extraOf))
    {
      numbers.AccumulateAll(numbersOf(records[i]), Drawn(records[..i], numbersOf));
      DrawnSnoc(records, i, numbersOf);
      MapSnoc(records, i, extraOf);
      TallySnoc(Map(records[..i], extraOf), extraOf(records[i]));
      extra.Accumulate(extraOf(records[i]));
      i := i + 1;
    }
    assert records[..|records|] == records;
    numberRows, extraRows := numbers.rows, extra.rows;
  }

  predicate CountLe<K>(a: Stat<K>, b: Stat<K>)
  {
    a.count <= b.count
  }

  /** `_.sortBy(table, 'count').reverse()`. */
  function ByCountDescending<K>(table: seq<Stat<K>>): seq<Stat<K>>
  {
    Reverse(SortBy(table, CountLe))
  }

  /** The rows come out most frequent first, as a rearrangement of the table. */
  lemma ByCountDescendingOrdered<K(!new)>(table: seq<Stat<K>>)
    ensures var r := ByCountDescending(table);
      && multiset(r) == multiset(table)
      && forall i, j :: 0 <= i < j < |r| ==> r[i].count >= r[j].count
  {
    assert TotalPreorder(CountLe<K>);
    SortDescending(table, CountLe);
  }

  /** The rows of count `c`, in table order. */
  function WithCount<K>(c: nat): Stat<K> -> bool
  {
    (s: Stat<K>) => s.count == c
  }

  /** The stable sort then `reverse` lists equally frequent rows in reverse order of first occurrence. */
  lemma ByCountDescendingTies<K(!new)>(table: seq<Stat<K>>, c: nat)
    ensures Filter(ByCountDescending(table), WithCount(c)) == Reverse(Filter(table, WithCount(c)))
  {
    SortDescendingTies(table, CountLe, WithCount(c));
  }

  /** A row with its `percentage` added (`{...stat, percentage}`), kept as whole thousandths. */
  datatype Rated<K> = Rated(stat: Stat<K>, perMille: nat)

  /** The rows without their percentages. */
  function Unrated<K>(rows: seq<Rated<K>>): seq<Stat<K>>
  {
    Map(rows, StatOf)
  }

  function StatOf<K>(r: Rated<K>): Stat<K>
  {
    r.stat
  }

  /**
   * `_.floor(count / total, 3)` in thousandths. With no records every table
   * is empty, so the value for `total == 0` is never used.
   */
  function PerMille(count: nat, total: nat): nat
  {
    if total == 0 then 0 else count * 1000 / total
  }

  lemma DivMonotone(a: nat, b: nat, d: nat)
    requires a <= b && d > 0
    ensures a / d <= b / d
  {
    var q, r := a / d, b / d;
    assert q * d <= a < (q + 1) * d;
    assert r * d <= b < (r + 1) * d;
  }

  /** More draws never give a smaller percentage; a count up to the total gives at most 1 (1000 thousandths). */
  lemma PerMilleMonotone(a: nat, b: nat, total: nat)
    requires a <= b
    ensures PerMille(a, total) <= PerMille(b, total)
    ensures b <= total ==> PerMille(b, total) <= 1000
  {
    if total > 0 {
      DivMonotone(a * 1000, b * 1000, total);
      if b <= total {
        DivMonotone(b * 1000, total * 1000, total);
      }
    }
  }

  /** `calculatePercentage` / `addPercentage(total)`: the row with its percentage added. */
  function Rate<K>(total: nat): Stat<K> -> Rated<K>
  {
    (s: Stat<K>) => Rated(s, PerMille(s.count, total))
  }

  predicate PerMilleLe<K>(a: Rated<K>, b: Rated<K>)
  {
    a.perMille <= b.perMille
  }

  /** `addPercentageAndSort(table, total)`: every row rated, then `_.sortBy(…, 'percentage').reverse()`. */
  function ByPercentageDescending<K>(table: seq<Stat<K>>, total: nat): seq<Rated<K>>
  {
    Reverse(SortBy(Map(table, Rate(total)), PerMilleLe))
  }

  /**
   * The rated table is the table's rows, each with its own percentage and
   * nothing else changed, rearranged so that the percentages never increase.
   */
  lemma ByPercentageDescendingSpec<K(!new)>(table: seq<Stat<K>>, total: nat)
    ensures var r := ByPercentageDescending(table, total);
      && multiset(r) == multiset(Map(table, Rate(total)))
      && (forall i :: 0 <= i < |r| ==> r[i].perMille == PerMille(r[i].stat.count, total))
      && forall i, j :: 0 <= i < j < |r| ==> r[i].perMille >= r[j].perMille
  {
    var rated := Map(table, Rate(total));
    assert TotalPreorder(PerMilleLe<K>);
    SortDescending(rated, PerMilleLe);
    var r := ByPercentageDescending(table, total);
    forall i | 0 <= i < |r| ensures r[i].perMille == PerMille(r[i].stat.count, total) {
      assert r[i] in multiset(rated);
    }
  }

  /** The rated rows whose percentage is `p` thousandths. */
  function WithPerMille<K>(p: nat): Rated<K> -> bool
  {
    (r: Rated<K>) => r.perMille == p
  }

  /**
   * Rows of the same percentage, which rows of different counts can share
   * once there are more than 1000 records, come out in reverse table order.
   */
  lemma ByPercentageDescendingTies<K(!new)>(table: seq<Stat<K>>, total: nat, p: nat)
    ensures Filter(ByPercentageDescending(table, total), WithPerMille(p)) == Reverse(Filter(Map(table, Rate(total)), WithPerMille(p)))
  {
    SortDescendingTies(Map(table, Rate(total)), PerMilleLe, WithPerMille(p));
  }

  /**
   * In the JavaScript scripts the percentage is added after the sort by
   * count, so the percentages come out in descending order as well.
   */
  lemma RatedByCountDescending<K(!new)>(table: seq<Stat<K>>, total: nat)
    ensures var r := Map(ByCountDescending(table), Rate(total));
      forall i, j :: 0 <= i < j < |r| ==> r[i].perMille >= r[j].perMille
  {
    ByCountDescendingOrdered(table);
    var sorted := ByCountDescending(table);
    var r := Map(sorted, Rate(total));
    forall i, j | 0 <= i < j < |r| ensures r[i].perMille >= r[j].perMille {
      PerMilleMonotone(sorted[j].count, sorted[i].count, total);
    }
  }

  /** `_.sortBy(records, 'date')`: date strings compared as JavaScript compares strings. */
  function ByDate<R>(dateOf: R -> string): (R, R) -> bool
  {
    (a: R, b: R) => LexLe(dateOf(a), dateOf(b))
  }

  lemma ByDateTotalPreorder<R(!new)>(dateOf: R -> string)
    ensures TotalPreorder(ByDate(dateOf))
  {
    forall a, b ensures ByDate(dateOf)(a, b) || ByDate(dateOf)(b, a) {
      LexLeTotal(dateOf(a), dateOf(b));
    }
    forall a, b, c | ByDate(dateOf)(a, b) && ByDate(dateOf)(b, c) ensures ByDate(dateOf)(a, c) {
      LexLeTransitive(dateOf(a), dateOf(b), dateOf(c));
    }
  }

  /** The `quantity` latest records: sorted by date, then `_.takeRight`. */
  function Latest<R>(records: seq<R>, dateOf: R -> string, quantity: nat): seq<R>
  {
    TakeRight(SortBy(records, ByDate(dateOf)), quantity)
  }

  /** `mapLatestMarkSixesToNumbers(records, quantity)`: the distinct numbers of the latest records. */
  function LatestNumbers<R>(records: seq<R>, dateOf: R -> string, numbersOf: R -> seq<int>, quantity: nat): seq<int>
  {
    Uniq(Drawn(Latest(records, dateOf, quantity), numbersOf))
  }

  /** The latest records are the last `min(quantity, |records|)` of the records in date order. */
  lemma LatestSpec<R(!new)>(records: seq<R>, dateOf: R -> string, quantity: nat)
    ensures var sorted := SortBy(records, ByDate(dateOf)); var latest := Latest(records, dateOf, quantity);
      && multiset(sorted) == multiset(records)
      && Pairwise(sorted, ByDate(dateOf))
      && |latest| == (if quantity < |records| then quantity else |records|)
      && latest == sorted[|sorted| - |latest|..]
  {
    ByDateTotalPreorder(dateOf);
    SortBySorted(records, ByDate(dateOf));
  }

  /** A number is drawn in some records iff one of those records holds it. */
  lemma DrawnMembers<R>(records: seq<R>, numbersOf: R -> seq<int>, x: int)
    ensures x in Drawn(records, numbersOf) <==> exists i :: 0 <= i < |records| && x in numbersOf(records[i])
  {
    var lists := Map(records, numbersOf);
    if x in Drawn(records, numbersOf) {
      var i :| 0 <= i < |lists| && x in lists[i];
      assert x in numbersOf(records[i]);
    }
    if exists i :: 0 <= i < |records| && x in numbersOf(records[i]) {
      var i :| 0 <= i < |records| && x in numbersOf(records[i]);
      assert x in lists[i];
    }
  }

  /** The latest numbers are, without repeats, exactly the numbers the latest records hold. */
  lemma LatestNumbersSpec<R(!new)>(records: seq<R>, dateOf: R -> string, numbersOf: R -> seq<int>, quantity: nat)
    ensures var r := LatestNumbers(records, dateOf, numbersOf, quantity); var latest := Latest(records, dateOf, quantity);
      && NoDup(r)
      && forall x :: x in r <==> exists i :: 0 <= i < |latest| && x in numbersOf(latest[i])
  {
    var latest := Latest(records, dateOf, quantity);
    forall x ensures x in Drawn(latest, numbersOf) <==> exists i :: 0 <= i < |latest| && x in numbersOf(latest[i]) {
      DrawnMembers(latest, numbersOf, x);
    }
  }

  predicate Below(a: int, b: int)
  {
    a < b
  }

  /** `_.times(49, index => index + 1)`: the numbers of the game, ascending. */
  function AllNumbers(): (r: seq<int>)
    ensures |r| == 49
    ensures forall x :: x in r <==> 1 <= x <= 49
    ensures Pairwise(r, Below)
  {
    var r := seq(49, i => i + 1);
    assert forall x :: 1 <= x <= 49 ==> x in r by {
      forall x | 1 <= x <= 49 ensures x in r {
        assert r[x - 1] == x;
      }
    }
    r
  }

  /**
   * The loop of scripts/stats.js and lib/hkjc/stats.js: `i` runs from 1 to
   * 49 and is pushed when `_.indexOf(numbers, i) < 0`. It computes what
   * `_.difference(allNumbers, numbers)` gives in the TypeScript scripts.
   */
  method NumbersNotIn(numbers: seq<int>) returns (r: seq<int>)
    ensures r == DifferenceBy(AllNumbers(), Elements(numbers))
  {
    r := [];
    var i := 1;
    while i <= 49
      invariant 1 <= i <= 50
      invariant r == DifferenceBy(AllNumbers()[..i - 1], Elements(numbers))
    {
      var all := AllNumbers();
      assert all[..i] == all[..i - 1] + [i];
      DifferenceBySnoc(all[..i - 1], i, Elements(numbers));
      if i !in numbers {
        r := r + [i];
      }
      i := i + 1;
    }
    assert AllNumbers()[..49] == AllNumbers();
  }

  /** The numbers left out are exactly those of 1..49 not in `numbers`, in ascending order. */
  lemma NumbersNotInSpec(numbers: seq<int>)
    ensures var r := DifferenceBy(AllNumbers(), Elements(numbers));
      && (forall x :: x in r <==> 1 <= x <= 49 && x !in numbers)
      && Pairwise(r, Below)
  {
    DifferenceByPairwise(AllNumbers(), Elements(numbers), Below);
  }

  /** How many of the latest draws `notInLast10` looks at. */
  const LatestQuantity: nat := 10

  /** `notInLast10`: the numbers of 1..49 that none of the ten latest records holds. */
  function NotInLatest<R>(records: seq<R>, dateOf: R -> string, numbersOf: R -> seq<int>): seq<int>
  {
    DifferenceBy(AllNumbers(), Elements(LatestNumbers(records, dateOf, numbersOf, LatestQuantity)))
  }

  lemma NotInLatestSpec<R(!new)>(records: seq<R>, dateOf: R -> string, numbersOf: R -> seq<int>)
    ensures var r := NotInLatest(records, dateOf, numbersOf); var latest := Latest(records, dateOf, LatestQuantity);
      && Pairwise(r, Below)
      && forall x :: x in r <==> 1 <= x <= 49 && forall i :: 0 <= i < |latest| ==> x !in numbersOf(latest[i])
  {
    LatestNumbersSpec(records, dateOf, numbersOf, LatestQuantity);
    NumbersNotInSpec(LatestNumbers(records, dateOf, numbersOf, LatestQuantity));
  }

  /** The `stats` object a script prints: the record count, the two tables and `notInLast10`. */
  datatype Report<K> = Report(total: nat, numbers: seq<Rated<int>>, specials: seq<Rated<K>>, notInLast10: seq<int>)

  /**
   * scripts/stats.js and lib/hkjc/stats.js: each table sorted by count,
   * most frequent first, then given its percentages.
   */
  function CountReport<R, K(==)>(records: seq<R>, dateOf: R -> string, numbersOf: R -> seq<int>, specialOf: R -> K): Report<K>
  {
    var total := |records|;
    Report(total,
      Map(ByCountDescending(Tally(Drawn(records, numbersOf))), Rate(total)),
      Map(ByCountDescending(Tally(Map(records, specialOf))), Rate(total)),
      NotInLatest(records, dateOf, numbersOf))
  }

  /** scripts/stats.ts and src/scripts/stats.ts: each table given its percentages, then sorted by them. */
  function PercentReport<R, K(==)>(records: seq<R>, dateOf: R -> string, numbersOf: R -> seq<int>, specialOf: R -> K): Report<K>
  {
    var total := |records|;
    Report(total,
      ByPercentageDescending(Tally(Drawn(records, numbersOf)), total),
      ByPercentageDescending(Tally(Map(records, specialOf)), total),
      NotInLatest(records, dateOf, numbersOf))
  }

  /**
   * `rows` is a frequency table of `values` with percentages out of
   * `total`: one row per distinct value and no other, each counting the
   * value's occurrences and carrying its percentage, the counts adding up
   * to the number of values.
   */
  ghost predicate Describes<K(!new)>(rows: seq<Rated<K>>, values: seq<K>, total: nat)
  {
    var table := Unrated(rows);
    && NoDup(Keys(table))
    && (forall x :: x in Keys(table) <==> x in values)
    && (forall i :: 0 <= i < |rows| ==> rows[i].stat.count == multiset(values)[rows[i].stat.number])
    && (forall i :: 0 <= i < |rows| ==> rows[i].perMille == PerMille(rows[i].stat.count, total))
    && SumCounts(table) == |values|
  }

  /** Any rearrangement of the tally, each row with its own percentage, describes the values. */
  lemma DescribesPermutation<K(!new)>(rows: seq<Rated<K>>, values: seq<K>, total: nat)
    requires multiset(Unrated(rows)) == multiset(Tally(values))
    requires forall i :: 0 <= i < |rows| ==> rows[i].perMille == PerMille(rows[i].stat.count, total)
    ensures Describes(rows, values, total)
  {
    var tally, table := Tally(values), Unrated(rows);
    TallyKeys(values);
    TallyCounts(values);
    TallySum(values);
    SumCountsPermutation(tally, table);
    MapPermutation(tally, table, NumberOf);
    NoDupPermutation(Keys(tally), Keys(table));
    forall x ensures x in Keys(table) <==> x in values {
      assert x in Keys(table) <==> x in multiset(Keys(table));
      assert x in Keys(tally) <==> x in multiset(Keys(tally));
    }
    forall i | 0 <= i < |rows| ensures rows[i].stat.count == multiset(values)[rows[i].stat.number] {
      assert table[i] in multiset(tally);
    }
  }

  lemma UnratedRate<K>(table: seq<Stat<K>>, total: nat)
    ensures Unrated(Map(table, Rate(total))) == table
  {
  }

  /**
   * The report of the JavaScript scripts: both tables describe the draws,
   * most frequent first, and `notInLast10` lists in ascending order the
   * numbers of 1..49 absent from the ten latest records.
   */
  lemma CountReportSpec<R(!new), K(!new)>(records: seq<R>, dateOf: R -> string, numbersOf: R -> seq<int>, specialOf: R -> K)
    ensures var r := CountReport(records, dateOf, numbersOf, specialOf);
      && r.total == |records|
      && Describes(r.numbers, Drawn(records, numbersOf), |records|)
      && Describes(r.specials, Map(records, specialOf), |records|)
      && (forall i, j :: 0 <= i < j < |r.numbers| ==> r.numbers[i].stat.count >= r.numbers[j].stat.count)
      && (forall i, j :: 0 <= i < j < |r.specials| ==> r.specials[i].stat.count >= r.specials[j].stat.count)
      && r.notInLast10 == NotInLatest(records, dateOf, numbersOf)
  {
    CountTable(Drawn(records, numbersOf), |records|);
    CountTable(Map(records, specialOf), |records|);
  }

  lemma CountTable<K(!new)>(values: seq<K>, total: nat)
    ensures var r := Map(ByCountDescending(Tally(values)), Rate(total));
      && Describes(r, values, total)
      && forall i, j :: 0 <= i < j < |r| ==> r[i].stat.count >= r[j].stat.count
  {
    var sorted := ByCountDescending(Tally(values));
    ByCountDescendingOrdered(Tally(values));
    UnratedRate(sorted, total);
    DescribesPermutation(Map(sorted, Rate(total)), values, total);
  }

  /** The report of the TypeScript scripts: both tables describe the draws, highest percentage first. */
  lemma PercentReportSpec<R(!new), K(!new)>(records: seq<R>, dateOf: R -> string, numbersOf: R -> seq<int>, specialOf: R -> K)
    ensures var r := PercentReport(records, dateOf, numbersOf, specialOf);
      && r.total == |records|
      && Describes(r.numbers, Drawn(records, numbersOf), |records|)
      && Describes(r.specials, Map(records, specialOf), |records|)
      && (forall i, j :: 0 <= i < j < |r.numbers| ==> r.numbers[i].perMille >= r.numbers[j].perMille)
      && (forall i, j :: 0 <= i < j < |r.specials| ==> r.specials[i].perMille >= r.specials[j].perMille)
      && r.notInLast10 == NotInLatest(records, dateOf, numbersOf)
  {
    PercentTable(Drawn(records, numbersOf), |records|);
    PercentTable(Map(records, specialOf), |records|);
  }

  lemma PercentTable<K(!new)>(values: seq<K>, total: nat)
    ensures var r := ByPercentageDescending(Tally(values), total);
      && Describes(r, values, total)
      && forall i, j :: 0 <= i < j < |r| ==> r[i].perMille >= r[j].perMille
  {
    var tally := Tally(values);
    var r := ByPercentageDescending(tally, total);
    ByPercentageDescendingSpec(tally, total);
    MapPermutation(Map(tally, Rate(total)), r, StatOf);
    UnratedRate(tally, total);
    DescribesPermutation(r, values, total);
  }

  /**
   * The body of scripts/stats.js and of lib/hkjc/stats.js over the records
   * `MarkSix.findAll` gives: the counting loop, the sorts by count, the
   * percentages and the loop over 1..49.
   */
  method CountStats<R, K(==)>(records: seq<R>, dateOf: R -> string, numbersOf: R -> seq<int>, specialOf: R -> K)
    returns (report: Report<K>)
    ensures report == CountReport(records, dateOf, numbersOf, specialOf)
  {
    var total := |records|;
    var numberRows, specialRows := CountDraws(records, numbersOf, specialOf);
    var numbers := Map(ByCountDescending(numberRows), Rate(total));
    var specials := Map(ByCountDescending(specialRows), Rate(total));
    var latest := LatestNumbers(records, dateOf, numbersOf, LatestQuantity);
    var notIn := NumbersNotIn(latest);
    report := Report(total, numbers, specials, notIn);
  }

  /**
   * The body of scripts/stats.ts and src/scripts/stats.ts: tally the
   * flattened numbers and the specials, rate and sort each table, and take
   * `_.difference` of 1..49 and the latest numbers.
   */
  method PercentStats<R, K(==)>(records: seq<R>, dateOf: R -> string, numbersOf: R -> seq<int>, specialOf: R -> K)
    returns (report: Report<K>)
    ensures report == PercentReport(records, dateOf, numbersOf, specialOf)
  {
    var total := |records|;
    var numberRows := CountAll(Drawn(records, numbersOf));
    var specialRows := CountAll(Map(records, specialOf));
    report := Report(total,
      ByPercentageDescending(numberRows, total),
      ByPercentageDescending(specialRows, total),
      NotInLatest(records, dateOf, numbersOf));
  }

  function DrawDate(d: DrawData): string
  {
    d.date
  }

  function DrawNumbers(d: DrawData): seq<int>
  {
    d.numbers
  }

  function DrawSpecial(d: DrawData): Special
  {
    d.special
  }

  /** The record shape lib/hkjc/stats.js reads: `{date, number, result: {numbers, extra}}`. */
  datatype LegacyResult = LegacyResult(numbers: seq<int>, extra: int)
  datatype LegacyDraw = LegacyDraw(date: string, number: string, result: LegacyResult)

  function LegacyDate(d: LegacyDraw): string
  {
    d.date
  }

  function LegacyNumbers(d: LegacyDraw): seq<int>
  {
    d.result.numbers
  }

  function LegacyExtra(d: LegacyDraw): int
  {
    d.result.extra
  }

  /** scripts/stats.js: the tables over `numbers` and `special`. */
  method ScriptStats(records: seq<DrawData>) returns (report: Report<Special>)
    ensures report == CountReport(records, DrawDate, DrawNumbers, DrawSpecial)
  {
    report := CountStats(records, DrawDate, DrawNumbers, DrawSpecial);
  }

  /** lib/hkjc/stats.js: the tables over `result.numbers` and `result.extra`. */
  method LegacyStats(records: seq<LegacyDraw>) returns (report: Report<int>)
    ensures report == CountReport(records, LegacyDate, LegacyNumbers, LegacyExtra)
  {
    report := CountStats(records, LegacyDate, LegacyNumbers, LegacyExtra);
  }

  /** scripts/stats.ts and src/scripts/stats.ts: the tables over `numbers` and `special`. */
  method TypedStats(records: seq<DrawData>) returns (report: Report<Special>)
    ensures report == PercentReport(records, DrawDate, DrawNumbers, DrawSpecial)
  {
    report := PercentStats(records, DrawDate, DrawNumbers, DrawSpecial);
  }
}
