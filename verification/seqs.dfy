/**
 Order-preserving filtering and the stable comparator sort that
 `Array.prototype.filter` and `Array.prototype.sort` perform on the board's
 listing arrays.
 */
module Seqs {

  /** Keeps the elements that satisfy `p`, in their original order. */
  function Filter<T(!new)>(s: seq<T>, p: T -> bool): (r: seq<T>)
    ensures |r| <= |s|
    ensures forall i :: 0 <= i < |r| ==> p(r[i])
    ensures forall x :: multiset(r)[x] == if p(x) then multiset(s)[x] else 0
  {
    if s == [] then []
    else
      assert s == [s[0]] + s[1..];
      if p(s[0]) then [s[0]] + Filter(s[1..], p) else Filter(s[1..], p)
  }

  /** `r` can be obtained from `s` by deleting elements, without reordering any. */
  predicate IsSubsequence<T(==)>(r: seq<T>, s: seq<T>)
    decreases |s|
  {
    r == [] || (s != [] && ((r[0] == s[0] && IsSubsequence(r[1..], s[1..])) || IsSubsequence(r, s[1..])))
  }

  /** Filtering never adds or reorders elements. */
  lemma {:induction false} FilterIsSubsequence<T(!new)>(s: seq<T>, p: T -> bool)
    ensures IsSubsequence(Filter(s, p), s)
  {
    if s != [] {
      FilterIsSubsequence(s[1..], p);
      var rest := Filter(s[1..], p);
      if p(s[0]) {
        assert ([s[0]] + rest)[1..] == rest;
      }
    }
  }

  /** When every element passes, filtering returns the input unchanged. */
  lemma {:induction false} FilterKeepsAll<T(!new)>(s: seq<T>, p: T -> bool)
    requires forall i :: 0 <= i < |s| ==> p(s[i])
    ensures Filter(s, p) == s
  {
    if s != [] {
      FilterKeepsAll(s[1..], p);
      assert s == [s[0]] + s[1..];
    }
  }

  /** Two tests that agree on every element filter alike. */
  lemma {:induction false} FilterCongruent<T(!new)>(s: seq<T>, p: T -> bool, q: T -> bool)
    requires forall i :: 0 <= i < |s| ==> p(s[i]) == q(s[i])
    ensures Filter(s, p) == Filter(s, q)
  {
    if s != [] {
      FilterCongruent(s[1..], p, q);
    }
  }

  /**
   Inserts `x` in front of the first element it does not sort after
   (`cmp(x, y) <= 0`), so that `x` stays ahead of elements it ties with.
   */
  function Insert<T>(x: T, t: seq<T>, cmp: (T, T) -> int): (r: seq<T>)
    ensures |r| == |t| + 1
    ensures multiset(r) == multiset(t) + multiset{x}
  {
    if t == [] then [x]
    else if cmp(x, t[0]) <= 0 then [x] + t
    else
      assert t == [t[0]] + t[1..];
      [t[0]] + Insert(x, t[1..], cmp)
  }

  /**
   A stable sort by a JavaScript-style comparator: `cmp(a, b) < 0` puts `a`
   first, `> 0` puts `b` first, `0` keeps the input order.
   */
  function Sort<T>(s: seq<T>, cmp: (T, T) -> int): (r: seq<T>)
    ensures |r| == |s|
    ensures multiset(r) == multiset(s)
  {
    if s == [] then []
    else
      assert s == [s[0]] + s[1..];
      Insert(s[0], Sort(s[1..], cmp), cmp)
  }

  predicate SortedBy<T>(s: seq<T>, cmp: (T, T) -> int) {
    forall i, j :: 0 <= i < j < |s| ==> cmp(s[i], s[j]) <= 0
  }

  /** A consistent comparator: any two elements are ordered one way or the other, transitively. */
  ghost predicate IsPreorder<T(!new)>(cmp: (T, T) -> int) {
    && (forall a, b :: cmp(a, b) <= 0 || cmp(b, a) <= 0)
    && (forall a, b, c :: cmp(a, b) <= 0 && cmp(b, c) <= 0 ==> cmp(a, c) <= 0)
  }

  /** Inserting an element no smaller than `lo` into elements no smaller than `lo` keeps that bound. */
  lemma {:induction false} InsertLowerBound<T>(x: T, t: seq<T>, cmp: (T, T) -> int, lo: T)
    requires cmp(lo, x) <= 0
    requires forall k :: 0 <= k < |t| ==> cmp(lo, t[k]) <= 0
    ensures forall k :: 0 <= k < |t| + 1 ==> cmp(lo, Insert(x, t, cmp)[k]) <= 0
  {
    if t != [] && cmp(x, t[0]) > 0 {
      InsertLowerBound(x, t[1..], cmp, lo);
    }
  }

  lemma {:induction false} InsertSorted<T(!new)>(x: T, t: seq<T>, cmp: (T, T) -> int)
    requires IsPreorder(cmp)
    requires SortedBy(t, cmp)
    ensures SortedBy(Insert(x, t, cmp), cmp)
  {
    if t == [] {
    } else if cmp(x, t[0]) <= 0 {
      var r := [x] + t;
      forall j | 0 < j < |r|
        ensures cmp(x, r[j]) <= 0
      {
        if j > 1 {
          assert cmp(t[0], t[j - 1]) <= 0;
        }
      }
    } else {
      var rest := Insert(x, t[1..], cmp);
      assert SortedBy(t[1..], cmp);
      InsertSorted(x, t[1..], cmp);
      assert cmp(t[0], x) <= 0;
      InsertLowerBound(x, t[1..], cmp, t[0]);
      var r := [t[0]] + rest;
      assert forall j :: 0 < j < |r| ==> r[j] == rest[j - 1];
    }
  }

  /** With a consistent comparator the sort's output is ordered by it. */
  lemma {:induction false} SortSorted<T(!new)>(s: seq<T>, cmp: (T, T) -> int)
    requires IsPreorder(cmp)
    ensures SortedBy(Sort(s, cmp), cmp)
  {
    if s != [] {
      SortSorted(s[1..], cmp);
      InsertSorted(s[0], Sort(s[1..], cmp), cmp);
    }
  }

  /** `a` and `b` compare equal both ways. */
  predicate Ties<T>(cmp: (T, T) -> int, a: T, b: T) {
    cmp(a, b) <= 0 && cmp(b, a) <= 0
  }

  lemma {:induction false} InsertKeepsTieOrder<T(!new)>(x: T, t: seq<T>, cmp: (T, T) -> int, y: T)
    requires IsPreorder(cmp)
    ensures Filter(Insert(x, t, cmp), z => Ties(cmp, z, y))
         == if Ties(cmp, x, y) then [x] + Filter(t, z => Ties(cmp, z, y)) else Filter(t, z => Ties(cmp, z, y))
  {
    if t != [] && cmp(x, t[0]) > 0 {
      InsertKeepsTieOrder(x, t[1..], cmp, y);
      assert ([t[0]] + Insert(x, t[1..], cmp))[1..] == Insert(x, t[1..], cmp);
    }
  }

  /**
   Stability: the elements tied with any `y` come out in the order they went in.
   */
  lemma {:induction false} SortStable<T(!new)>(s: seq<T>, cmp: (T, T) -> int, y: T)
    requires IsPreorder(cmp)
    ensures Filter(Sort(s, cmp), z => Ties(cmp, z, y)) == Filter(s, z => Ties(cmp, z, y))
  {
    if s != [] {
      SortStable(s[1..], cmp, y);
      InsertKeepsTieOrder(s[0], Sort(s[1..], cmp), cmp, y);
    }
  }
}
