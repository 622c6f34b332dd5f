/**
 * Sequence operations the table code is built from: keeping the rows that
 * pass a test (a boolean mask in pandas), and the sorted list of distinct
 * values (`sorted(series.unique())`).
 */
module Seqs {

  /** The elements of `xs` that satisfy `p`, in their original order. */
  function Filter<T(!new)>(p: T -> bool, xs: seq<T>): (r: seq<T>)
    ensures |r| <= |xs|
    ensures forall x :: x in r <==> x in xs && p(x)
  {
    if xs == [] then []
    else if p(xs[0]) then [xs[0]] + Filter(p, xs[1..])
    else Filter(p, xs[1..])
  }

  /** Filtering works block by block: it keeps the order of the rows it keeps. */
  lemma {:induction false} FilterAppend<T(!new)>(p: T -> bool, xs: seq<T>, ys: seq<T>)
    ensures Filter(p, xs + ys) == Filter(p, xs) + Filter(p, ys)
  {
    if xs == [] {
      assert xs + ys == ys;
    } else {
      assert (xs + ys)[0] == xs[0];
      assert (xs + ys)[1..] == xs[1..] + ys;
      FilterAppend(p, xs[1..], ys);
    }
  }

  /** Two masks applied one after the other are the mask of their conjunction `pq`. */
  lemma {:induction false} FilterFuse<T(!new)>(p: T -> bool, q: T -> bool, pq: T -> bool, xs: seq<T>)
    requires forall x :: pq(x) == (p(x) && q(x))
    ensures Filter(q, Filter(p, xs)) == Filter(pq, xs)
  {
    if xs != [] {
      FilterFuse(p, q, pq, xs[1..]);
    }
  }

  /** Masks that agree on every element keep the same elements. */
  lemma {:induction false} FilterCongruent<T(!new)>(p: T -> bool, q: T -> bool, xs: seq<T>)
    requires forall x :: p(x) == q(x)
    ensures Filter(p, xs) == Filter(q, xs)
  {
    if xs != [] {
      FilterCongruent(p, q, xs[1..]);
    }
  }

  /** A mask every element passes changes nothing. */
  lemma {:induction false} FilterKeepsAll<T(!new)>(p: T -> bool, xs: seq<T>)
    requires forall x :: x in xs ==> p(x)
    ensures Filter(p, xs) == xs
  {
    if xs != [] {
      FilterKeepsAll(p, xs[1..]);
    }
  }

  /** `less` is a strict total order: irreflexive, transitive and connected. */
  ghost predicate StrictTotalOrder<T(!new)>(less: (T, T) -> bool)
  {
    && (forall x :: !less(x, x))
    && (forall x, y, z :: less(x, y) && less(y, z) ==> less(x, z))
    && (forall x, y :: x != y ==> less(x, y) || less(y, x))
  }

  predicate StrictlyIncreasing<T>(less: (T, T) -> bool, xs: seq<T>)
  {
    forall i, j :: 0 <= i < j < |xs| ==> less(xs[i], xs[j])
  }

  /** Adds `x` to a strictly increasing sequence, unless it is there already. */
  function Insert<T(==, !new)>(less: (T, T) -> bool, x: T, xs: seq<T>): (r: seq<T>)
    requires StrictTotalOrder(less)
    requires StrictlyIncreasing(less, xs)
    ensures StrictlyIncreasing(less, r)
    ensures forall y :: y in r <==> y == x || y in xs
  {
    if xs == [] then [x]
    else if x == xs[0] then xs
    else if less(x, xs[0]) then [x] + xs
    else
      var rest := Insert(less, x, xs[1..]);
      assert forall y :: y in rest ==> less(xs[0], y);
      [xs[0]] + rest
  }

  /** The distinct elements of `xs`, in increasing order. */
  function SortedDistinct<T(==, !new)>(less: (T, T) -> bool, xs: seq<T>): (r: seq<T>)
    requires StrictTotalOrder(less)
    ensures StrictlyIncreasing(less, r)
    ensures forall i, j :: 0 <= i < j < |r| ==> r[i] != r[j]
    ensures forall y :: y in r <==> y in xs
  {
    if xs == [] then []
    else Insert(less, xs[|xs| - 1], SortedDistinct(less, xs[..|xs| - 1]))
  }

  /**
   * A strictly increasing sequence is fixed by its elements: SortedDistinct
   * is the only list a sort of the distinct values can produce.
   */
  lemma {:induction false} IncreasingIsUnique<T(!new)>(less: (T, T) -> bool, a: seq<T>, b: seq<T>)
    requires StrictTotalOrder(less)
    requires StrictlyIncreasing(less, a) && StrictlyIncreasing(less, b)
    requires forall y :: y in a <==> y in b
    ensures a == b
  {
    assert a != [] ==> a[0] in b;
    assert b != [] ==> b[0] in a;
    if a != [] {
      var i :| 0 <= i < |b| && b[i] == a[0];
      var j :| 0 <= j < |a| && a[j] == b[0];
      var a0, b0 := a[0], b[0];
      assert i == 0 || less(b0, a0);
      assert j == 0 || less(a0, b0);
      assert a0 == b0;
      forall y | y in a[1..] ensures y in b[1..] {
        var i :| 1 <= i < |a| && a[i] == y;
        assert less(a[0], a[i]);
        assert y in b;
        var j :| 0 <= j < |b| && b[j] == y;
        assert j != 0;
        assert b[1..][j - 1] == y;
      }
      forall y | y in b[1..] ensures y in a[1..] {
        var i :| 1 <= i < |b| && b[i] == y;
        assert less(b[0], b[i]);
        assert y in a;
        var j :| 0 <= j < |a| && a[j] == y;
        assert j != 0;
        assert a[1..][j - 1] == y;
      }
      IncreasingIsUnique(less, a[1..], b[1..]);
      assert a == [a[0]] + a[1..] && b == [b[0]] + b[1..];
    }
  }
}
