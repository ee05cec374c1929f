/**
 * A stable sort parameterised by a "less than or equal" relation: the one
 * sort the scripts use in all its guises (`_.sortBy`, `Array.prototype.sort`
 * with and without a comparator). Its contract is the one the callers rely
 * on: the result is ordered, is a permutation of the input, keeps the input
 * order of elements the relation cannot tell apart, and leaves an ordered
 * input unchanged.
 */
module Sorting {
  import opened Collections

  /** `le` is total and transitive, so it can order any sequence. */
  ghost predicate TotalPreorder<T(!new)>(le: (T, T) -> bool)
  {
    && (forall a, b :: le(a, b) || le(b, a))
    && (forall a, b, c :: le(a, b) && le(b, c) ==> le(a, c))
  }

  /** Places `x` in front of the first element it is `le` to. */
  function Insert<T>(x: T, s: seq<T>, le: (T, T) -> bool): (r: seq<T>)
    ensures |r| == |s| + 1
    ensures multiset(r) == multiset(s) + multiset{x}
  {
    if s == [] || le(x, s[0]) then [x] + s
    else
      assert s == [s[0]] + s[1..];
      [s[0]] + Insert(x, s[1..], le)
  }

  /** Insertion sort: stable, because an element goes before the equal elements that followed it. */
  function SortBy<T>(xs: seq<T>, le: (T, T) -> bool): (r: seq<T>)
    ensures |r| == |xs|
    ensures multiset(r) == multiset(xs)
  {
    if xs == [] then []
    else
      assert xs == [xs[0]] + xs[1..];
      Insert(xs[0], SortBy(xs[1..], le), le)
  }

  lemma {:induction false} InsertSorted<T(!new)>(x: T, s: seq<T>, le: (T, T) -> bool)
    requires TotalPreorder(le)
    requires Pairwise(s, le)
    ensures Pairwise(Insert(x, s, le), le)
  {
    if s == [] || le(x, s[0]) {
      var r := [x] + s;
      forall i, j | 0 <= i < j < |r| ensures le(r[i], r[j]) {
        if i == 0 && j > 1 {
          assert le(x, s[0]) && le(s[0], s[j - 1]);
        }
      }
    } else {
      assert le(s[0], x);
      InsertSorted(x, s[1..], le);
      var tail := Insert(x, s[1..], le);
      var r := [s[0]] + tail;
      forall j | 0 <= j < |tail| ensures le(s[0], tail[j]) {
        assert tail[j] in multiset(tail);
        assert tail[j] == x || tail[j] in multiset(s[1..]);
        if tail[j] != x {
          var k :| 0 <= k < |s[1..]| && s[1..][k] == tail[j];
          assert s[k + 1] == tail[j];
        }
      }
      forall i, j | 0 <= i < j < |r| ensures le(r[i], r[j]) {
        if i == 0 {
          assert r[j] == tail[j - 1];
        } else {
          assert r[i] == tail[i - 1] && r[j] == tail[j - 1];
        }
      }
    }
  }

  /** A total preorder sorts: every element is `le` every later one. */
  lemma {:induction false} SortBySorted<T(!new)>(xs: seq<T>, le: (T, T) -> bool)
    requires TotalPreorder(le)
    ensures Pairwise(SortBy(xs, le), le)
  {
    if xs != [] {
      SortBySorted(xs[1..], le);
      InsertSorted(xs[0], SortBy(xs[1..], le), le);
    }
  }

  /** Sorting an already ordered sequence changes nothing. */
  lemma {:induction false} SortBySortedIdempotent<T>(xs: seq<T>, le: (T, T) -> bool)
    requires Pairwise(xs, le)
    ensures SortBy(xs, le) == xs
  {
    if xs != [] {
      assert Pairwise(xs[1..], le) by {
        forall i, j | 0 <= i < j < |xs[1..]| ensures le(xs[1..][i], xs[1..][j]) {
          assert xs[1..][i] == xs[i + 1] && xs[1..][j] == xs[j + 1];
        }
      }
      SortBySortedIdempotent(xs[1..], le);
      if |xs| > 1 {
        assert le(xs[0], xs[1]);
      }
      assert [xs[0]] + xs[1..] == xs;
    }
  }

  lemma {:induction false} InsertStable<T(!new)>(x: T, s: seq<T>, le: (T, T) -> bool, p: T -> bool)
    requires forall a, b :: p(a) && p(b) ==> le(a, b)
    ensures Filter(Insert(x, s, le), p) == if p(x) then [x] + Filter(s, p) else Filter(s, p)
  {
    if s == [] || le(x, s[0]) {
      assert ([x] + s)[1..] == s;
    } else {
      InsertStable(x, s[1..], le, p);
      var r := [s[0]] + Insert(x, s[1..], le);
      assert r[1..] == Insert(x, s[1..], le);
      if p(x) {
        assert !p(s[0]);
      }
    }
  }

  /**
   * Stability: for any class `p` of elements the relation cannot tell apart,
   * the members of that class keep their input order.
   */
  lemma {:induction false} SortByStable<T(!new)>(xs: seq<T>, le: (T, T) -> bool, p: T -> bool)
    requires forall a, b :: p(a) && p(b) ==> le(a, b)
    ensures Filter(SortBy(xs, le), p) == Filter(xs, p)
  {
    if xs != [] {
      SortByStable(xs[1..], le, p);
      InsertStable(xs[0], SortBy(xs[1..], le), le, p);
    }
  }

  /** Under a relation that is antisymmetric on the elements involved, there is only one ordered arrangement. */
  lemma {:induction false} SortedUnique<T(!new)>(a: seq<T>, b: seq<T>, le: (T, T) -> bool)
    requires Pairwise(a, le) && Pairwise(b, le)
    requires multiset(a) == multiset(b)
    requires forall x, y :: x in b && y in b && le(x, y) && le(y, x) ==> x == y
    ensures a == b
  {
    assert |a| == |multiset(a)| == |b|;
    if a != [] {
      HeadsAgree(a, b, le);
      var x := a[0];
      assert a == [x] + a[1..] && b == [x] + b[1..];
      assert multiset(a) == multiset(a[1..]) + multiset{x};
      assert multiset(b) == multiset(b[1..]) + multiset{x};
      MultisetCancel(multiset(a[1..]), multiset(b[1..]), multiset{x});
      PairwiseTail(a, le);
      PairwiseTail(b, le);
      assert forall z :: z in b[1..] ==> z in b;
      SortedUnique(a[1..], b[1..], le);
    }
  }

  lemma PairwiseTail<T>(a: seq<T>, le: (T, T) -> bool)
    requires a != [] && Pairwise(a, le)
    ensures Pairwise(a[1..], le)
  {
    forall i, j | 0 <= i < j < |a[1..]| ensures le(a[1..][i], a[1..][j]) {
      assert a[1..][i] == a[i + 1] && a[1..][j] == a[j + 1];
    }
  }

  /** Two ordered arrangements of the same elements start with the same element. */
  lemma HeadsAgree<T(!new)>(a: seq<T>, b: seq<T>, le: (T, T) -> bool)
    requires a != [] && b != []
    requires Pairwise(a, le) && Pairwise(b, le)
    requires multiset(a) == multiset(b)
    requires forall x, y :: x in b && y in b && le(x, y) && le(y, x) ==> x == y
    ensures a[0] == b[0]
  {
    var x, y := a[0], b[0];
    assert x in multiset(b) && y in multiset(a);
    var k :| 0 <= k < |b| && b[k] == x;
    var j :| 0 <= j < |a| && a[j] == y;
    if j > 0 && k > 0 {
      assert le(a[0], a[j]) && le(b[0], b[k]);
    }
  }

  /** `_.sortBy(xs, key).reverse()`: the same elements, greatest first. */
  lemma SortDescending<T(!new)>(xs: seq<T>, le: (T, T) -> bool)
    requires TotalPreorder(le)
    ensures var r := Reverse(SortBy(xs, le));
      && multiset(r) == multiset(xs)
      && forall i, j :: 0 <= i < j < |r| ==> le(r[j], r[i])
  {
    SortBySorted(xs, le);
    ReverseMultiset(SortBy(xs, le));
    PairwiseReverse(SortBy(xs, le), le);
  }

  lemma PairwiseReverse<T>(s: seq<T>, le: (T, T) -> bool)
    requires Pairwise(s, le)
    ensures forall i, j :: 0 <= i < j < |Reverse(s)| ==> le(Reverse(s)[j], Reverse(s)[i])
  {
    var r := Reverse(s);
    forall i, j | 0 <= i < j < |r| ensures le(r[j], r[i]) {
      assert r[j] == s[|s| - 1 - j] && r[i] == s[|s| - 1 - i];
    }
  }

  /** Elements the order cannot tell apart come out of `sortBy` then `reverse` in reverse input order. */
  lemma SortDescendingTies<T(!new)>(xs: seq<T>, le: (T, T) -> bool, p: T -> bool)
    requires forall a, b :: p(a) && p(b) ==> le(a, b)
    ensures Filter(Reverse(SortBy(xs, le)), p) == Reverse(Filter(xs, p))
  {
    SortByStable(xs, le, p);
    FilterReverse(SortBy(xs, le), p);
  }
}
