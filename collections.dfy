/**
 * The sequence helpers the scripts take from lodash and from Array.prototype:
 * `_.differenceBy` / `_.difference`, `_.uniq`, `_.compact`, `_.takeRight`,
 * `_.flatMap`, `reverse`, plus the small vocabulary (Option, Result,
 * pairwise-ordered, duplicate-free) the rest of the model is stated in.
 */
module Collections {

  datatype Option<+T> = None | Some(value: T)

  datatype Result<+T, +E> = Ok(value: T) | Err(error: E)

  /** Every earlier element is related to every later one. */
  predicate Pairwise<T>(xs: seq<T>, rel: (T, T) -> bool)
  {
    forall i, j :: 0 <= i < j < |xs| ==> rel(xs[i], xs[j])
  }

  predicate NoDup<T(==)>(xs: seq<T>)
  {
    forall i, j :: 0 <= i < j < |xs| ==> xs[i] != xs[j]
  }

  function Elements<T(!new)>(xs: seq<T>): (r: set<T>)
    ensures forall x :: x in r <==> x in xs
  {
    set x | x in xs
  }

  lemma ElementsCons<T(!new)>(x: T, xs: seq<T>)
    ensures Elements([x] + xs) == {x} + Elements(xs)
  {
    assert forall y :: y in [x] + xs <==> y == x || y in xs;
  }

  /**
   * `_.differenceBy(xs, unwanted, f)` with an injective `f`: the elements of
   * `xs` that are not unwanted, in their original order (duplicates of `xs`
   * kept). Lodash looks the comparator values up in a set built from the
   * unwanted array, so only the unwanted ELEMENTS matter.
   */
  function DifferenceBy<T(==,!new)>(xs: seq<T>, unwanted: set<T>): (r: seq<T>)
    ensures forall x :: x in r <==> x in xs && x !in unwanted
    ensures |r| <= |xs|
  {
    if xs == [] then []
    else if xs[0] in unwanted then DifferenceBy(xs[1..], unwanted)
    else [xs[0]] + DifferenceBy(xs[1..], unwanted)
  }

  /** Extending the source by one element extends the difference by it, unless it is unwanted. */
  lemma {:induction false} DifferenceBySnoc<T(!new)>(xs: seq<T>, x: T, unwanted: set<T>)
    ensures DifferenceBy(xs + [x], unwanted) == DifferenceBy(xs, unwanted) + (if x in unwanted then [] else [x])
  {
    if xs == [] {
      assert xs + [x] == [x];
    } else {
      assert (xs + [x])[1..] == xs[1..] + [x];
      DifferenceBySnoc(xs[1..], x, unwanted);
    }
  }

  /** A difference keeps the order of its source: any pairwise relation survives. */
  lemma {:induction false} DifferenceByPairwise<T(!new)>(xs: seq<T>, unwanted: set<T>, rel: (T, T) -> bool)
    requires Pairwise(xs, rel)
    ensures Pairwise(DifferenceBy(xs, unwanted), rel)
  {
    if xs != [] {
      assert Pairwise(xs[1..], rel) by {
        forall i, j | 0 <= i < j < |xs[1..]| ensures rel(xs[1..][i], xs[1..][j]) {
          assert xs[1..][i] == xs[i + 1] && xs[1..][j] == xs[j + 1];
        }
      }
      DifferenceByPairwise(xs[1..], unwanted, rel);
      var rest := DifferenceBy(xs[1..], unwanted);
      if xs[0] !in unwanted {
        forall j | 0 <= j < |rest| ensures rel(xs[0], rest[j]) {
          assert rest[j] in xs[1..];
          var k :| 0 <= k < |xs[1..]| && xs[1..][k] == rest[j];
          assert xs[k + 1] == rest[j];
        }
        var r := [xs[0]] + rest;
        forall i, j | 0 <= i < j < |r| ensures rel(r[i], r[j]) {
          if i == 0 {
            assert r[j] == rest[j - 1];
          } else {
            assert r[i] == rest[i - 1] && r[j] == rest[j - 1];
          }
        }
      }
    }
  }

  /** A list without repeats has as many distinct elements as entries. */
  lemma {:induction false} NoDupCardinality<T(!new)>(xs: seq<T>)
    requires NoDup(xs)
    ensures |Elements(xs)| == |xs|
  {
    if xs != [] {
      var rest := xs[1..];
      assert NoDup(rest) by {
        assert forall i :: 0 <= i < |rest| ==> rest[i] == xs[i + 1];
      }
      NoDupCardinality(rest);
      assert Elements(xs) == {xs[0]} + Elements(rest);
      assert xs[0] !in Elements(rest);
    }
  }

  /** A difference of a duplicate-free sequence is duplicate-free. */
  lemma {:induction false} DifferenceByNoDup<T(!new)>(xs: seq<T>, unwanted: set<T>)
    requires NoDup(xs)
    ensures NoDup(DifferenceBy(xs, unwanted))
  {
    DifferenceByPairwise(xs, unwanted, (a: T, b: T) => a != b);
  }

  /** `_.uniq`: the first occurrence of every element, in order of first occurrence. */
  function Uniq<T(==,!new)>(xs: seq<T>): (r: seq<T>)
    ensures NoDup(r)
    ensures forall x :: x in r <==> x in xs
    ensures |r| <= |xs|
  {
    if xs == [] then []
    else
      var u := Uniq(xs[..|xs| - 1]);
      if xs[|xs| - 1] in u then u else u + [xs[|xs| - 1]]
  }

  /** `_.uniq` leaves a duplicate-free sequence as it is. */
  lemma {:induction false} UniqOfNoDup<T(!new)>(xs: seq<T>)
    requires NoDup(xs)
    ensures Uniq(xs) == xs
  {
    if xs != [] {
      var init := xs[..|xs| - 1];
      assert NoDup(init);
      UniqOfNoDup(init);
      assert xs[|xs| - 1] !in init;
      assert init + [xs[|xs| - 1]] == xs;
    }
  }

  /** `_.uniq` of a prefix is a prefix of `_.uniq` of the whole. */
  lemma {:induction false} UniqPrefix<T(!new)>(xs: seq<T>, k: nat)
    requires k <= |xs|
    ensures Uniq(xs[..k]) <= Uniq(xs)
    decreases |xs|
  {
    if k < |xs| {
      var init := xs[..|xs| - 1];
      assert xs[..k] == init[..k];
      UniqPrefix(init, k);
    } else {
      assert xs[..k] == xs;
    }
  }

  /**
   * `_.uniq` keeps the order of first occurrence: whatever comes before `x`
   * in the result occurs in the input before every occurrence of `x`.
   */
  lemma UniqFirstOccurrence<T(!new)>(xs: seq<T>)
    ensures forall i, j, p :: 0 <= i < j < |Uniq(xs)| && 0 <= p < |xs| && xs[p] == Uniq(xs)[j] ==> Uniq(xs)[i] in xs[..p]
  {
    var r := Uniq(xs);
    forall i, j, p | 0 <= i < j < |r| && 0 <= p < |xs| && xs[p] == r[j] ensures r[i] in xs[..p] {
      var v := Uniq(xs[..p + 1]);
      UniqPrefix(xs, p + 1);
      assert xs[..p + 1] == xs[..p] + [xs[p]];
      assert xs[p] in v;
      var q :| 0 <= q < |v| && v[q] == xs[p];
      assert r[q] == r[j];
      assert q == j;
      assert r[i] == v[i];
    }
  }

  /** `_.compact` on the values a `mapSeries` callback resolves to: drops every `undefined`. */
  function Compact<T(!new)>(xs: seq<Option<T>>): (r: seq<T>)
    ensures |r| <= |xs|
    ensures forall x :: x in r <==> Some(x) in xs
  {
    if xs == [] then []
    else if xs[0].None? then Compact(xs[1..])
    else [xs[0].value] + Compact(xs[1..])
  }

  /** `_.takeRight(xs, n)`: the last `n` elements, or all of them. */
  function TakeRight<T>(xs: seq<T>, n: nat): (r: seq<T>)
    ensures |r| == if n < |xs| then n else |xs|
    ensures forall i :: 0 <= i < |r| ==> r[i] == xs[|xs| - |r| + i]
  {
    if n < |xs| then xs[|xs| - n..] else xs
  }

  /** `_.flatMap(xss, identity)`: concatenation in order. */
  function Flatten<T(!new)>(xss: seq<seq<T>>): (r: seq<T>)
    ensures forall x :: x in r <==> exists i :: 0 <= i < |xss| && x in xss[i]
  {
    if xss == [] then []
    else
      var r := Flatten(xss[..|xss| - 1]) + xss[|xss| - 1];
      assert forall x :: x in r <==> exists i :: 0 <= i < |xss| && x in xss[i] by {
        forall x ensures x in r <==> exists i :: 0 <= i < |xss| && x in xss[i] {
          if x in r && x !in xss[|xss| - 1] {
            var i :| 0 <= i < |xss| - 1 && x in xss[..|xss| - 1][i];
            assert x in xss[i];
          }
          if (exists i :: 0 <= i < |xss| && x in xss[i]) && x !in xss[|xss| - 1] {
            var i :| 0 <= i < |xss| && x in xss[i];
            assert i < |xss| - 1 && xss[..|xss| - 1][i] == xss[i];
          }
        }
      }
      r
  }

  /** `Array.prototype.reverse`. */
  function Reverse<T>(xs: seq<T>): (r: seq<T>)
    ensures |r| == |xs|
    ensures forall i :: 0 <= i < |xs| ==> r[i] == xs[|xs| - 1 - i]
  {
    if xs == [] then [] else Reverse(xs[1..]) + [xs[0]]
  }

  lemma ReverseMultiset<T>(xs: seq<T>)
    ensures multiset(Reverse(xs)) == multiset(xs)
  {
    if xs != [] {
      ReverseMultiset(xs[1..]);
      assert xs == [xs[0]] + xs[1..];
    }
  }

  /** The elements of `xs` satisfying `p`, in order. */
  function Filter<T(!new)>(xs: seq<T>, p: T -> bool): (r: seq<T>)
    ensures forall x :: x in r <==> x in xs && p(x)
  {
    if xs == [] then []
    else if p(xs[0]) then [xs[0]] + Filter(xs[1..], p)
    else Filter(xs[1..], p)
  }

  lemma {:induction false} FilterAppend<T(!new)>(xs: seq<T>, ys: seq<T>, p: T -> bool)
    ensures Filter(xs + ys, p) == Filter(xs, p) + Filter(ys, p)
  {
    if xs == [] {
      assert xs + ys == ys;
    } else {
      assert (xs + ys)[1..] == xs[1..] + ys;
      FilterAppend(xs[1..], ys, p);
    }
  }

  /** Reversing commutes with filtering. */
  lemma {:induction false} FilterReverse<T(!new)>(xs: seq<T>, p: T -> bool)
    ensures Filter(Reverse(xs), p) == Reverse(Filter(xs, p))
  {
    if xs != [] {
      FilterReverse(xs[1..], p);
      FilterAppend(Reverse(xs[1..]), [xs[0]], p);
      var f := Filter(xs[1..], p);
      if p(xs[0]) {
        assert Filter(xs, p) == [xs[0]] + f;
        assert ([xs[0]] + f)[1..] == f;
      }
    }
  }

  /** `_.map`. */
  function Map<T, U>(xs: seq<T>, f: T -> U): (r: seq<U>)
    ensures |r| == |xs|
    ensures forall i :: 0 <= i < |xs| ==> r[i] == f(xs[i])
  {
    seq(|xs|, i requires 0 <= i < |xs| => f(xs[i]))
  }

  lemma MultisetCancel<T>(a: multiset<T>, b: multiset<T>, m: multiset<T>)
    requires a + m == b + m
    ensures a == b
  {
    forall y ensures a[y] == b[y] {
      assert (a + m)[y] == (b + m)[y];
    }
  }

  /** Taking out the element at `j`. */
  lemma RemoveAt<T>(b: seq<T>, j: nat)
    requires j < |b|
    ensures b == b[..j] + [b[j]] + b[j + 1..]
    ensures multiset(b) == multiset(b[..j] + b[j + 1..]) + multiset{b[j]}
  {
    assert b == b[..j] + [b[j]] + b[j + 1..];
  }

  lemma MapAppend<T, U>(a: seq<T>, b: seq<T>, f: T -> U)
    ensures Map(a + b, f) == Map(a, f) + Map(b, f)
  {
  }

  lemma MapOmit<T, U>(p: seq<T>, x: T, q: seq<T>, f: T -> U)
    ensures multiset(Map(p + [x] + q, f)) == multiset(Map(p + q, f)) + multiset{f(x)}
  {
    MapAppend(p + [x], q, f);
    MapAppend(p, [x], f);
    MapAppend(p, q, f);
    assert Map([x], f) == [f(x)];
  }

  /** Where the first element of `a` sits in its rearrangement `b`, and what is left of both without it. */
  lemma Match<T>(a: seq<T>, b: seq<T>) returns (j: nat)
    requires multiset(a) == multiset(b) && a != []
    ensures j < |b| && b[j] == a[0]
    ensures b == b[..j] + [a[0]] + b[j + 1..]
    ensures multiset(a[1..]) == multiset(b[..j] + b[j + 1..])
  {
    var x := a[0];
    assert x in multiset(b);
    j :| 0 <= j < |b| && b[j] == x;
    var rest := b[..j] + b[j + 1..];
    RemoveAt(b, j);
    assert a == [x] + a[1..];
    assert multiset(a) == multiset(a[1..]) + multiset{x};
    MultisetCancel(multiset(a[1..]), multiset(rest), multiset{x});
  }

  /** Mapping a rearrangement gives a rearrangement of the mapped sequence. */
  lemma {:induction false} MapPermutation<T, U>(a: seq<T>, b: seq<T>, f: T -> U)
    requires multiset(a) == multiset(b)
    ensures multiset(Map(a, f)) == multiset(Map(b, f))
    decreases |a|
  {
    if a == [] {
      assert |b| == |multiset(b)| == 0;
      assert b == [];
    } else {
      var x := a[0];
      var j := Match(a, b);
      var rest := b[..j] + b[j + 1..];
      MapPermutation(a[1..], rest, f);
      MapOmit(b[..j], x, b[j + 1..], f);
      assert multiset(Map(b, f)) == multiset(Map(rest, f)) + multiset{f(x)};
      assert a == [] + [x] + a[1..] && [] + a[1..] == a[1..];
      MapOmit([], x, a[1..], f);
      assert multiset(Map(a, f)) == multiset(Map(a[1..], f)) + multiset{f(x)};
    }
  }

  lemma NoDupInsert<T>(p: seq<T>, x: T, q: seq<T>)
    requires NoDup(p + q) && x !in p + q
    ensures NoDup(p + [x] + q)
  {
    var s, t := p + [x] + q, p + q;
    forall i, k | 0 <= i < k < |s| ensures s[i] != s[k] {
      if i < |p| && k > |p| {
        assert s[i] == t[i] && s[k] == t[k - 1];
      } else if k < |p| {
        assert s[i] == t[i] && s[k] == t[k];
      } else if i > |p| {
        assert s[i] == t[i - 1] && s[k] == t[k - 1];
      }
    }
  }

  /** A rearrangement of a duplicate-free sequence is duplicate-free. */
  lemma {:induction false} NoDupPermutation<T>(a: seq<T>, b: seq<T>)
    requires multiset(a) == multiset(b)
    requires NoDup(a)
    ensures NoDup(b)
    decreases |a|
  {
    if a != [] {
      var x := a[0];
      var j := Match(a, b);
      var rest := b[..j] + b[j + 1..];
      assert NoDup(a[1..]);
      NoDupPermutation(a[1..], rest);
      assert x !in multiset(rest) by {
        assert x !in a[1..];
      }
      NoDupInsert(b[..j], x, b[j + 1..]);
    }
  }
}
