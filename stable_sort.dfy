/**
  * The ordering the estimator gets from JavaScript's `Array.prototype.sort` with a
  * numeric comparator: a stable sort, ascending by a real-valued key. The source sorts
  * each product's rows by date (ascending) and the final predictions by
  * `b.predicted_daily_sales - a.predicted_daily_sales` (descending, i.e. ascending by
  * the negated key). The sort itself is library code; it is modelled here as a stable
  * insertion sort whose properties are proved once and used by both callers.
  */
module StableSort {

  /** `s` is ordered non-decreasingly by `key`. */
  predicate SortedBy<T>(s: seq<T>, key: T -> real) {
    forall i, j :: 0 <= i < j < |s| ==> key(s[i]) <= key(s[j])
  }

  /** Inserts `x` in front of the first element whose key is not smaller than its own. */
  function Insert<T>(x: T, s: seq<T>, key: T -> real): (r: seq<T>)
    requires SortedBy(s, key)
    ensures |r| == |s| + 1
    ensures SortedBy(r, key)
    ensures multiset(r) == multiset(s) + multiset{x}
    ensures r[0] == (if s == [] || key(x) <= key(s[0]) then x else s[0])
  {
    if s == [] || key(x) <= key(s[0]) then
      [x] + s
    else
      var t := Insert(x, s[1..], key);
      assert s == [s[0]] + s[1..];
      assert key(s[0]) <= key(t[0]);
      [s[0]] + t
  }

  /** Stable insertion sort: the first element is inserted into the sorted rest. */
  function Sort<T>(s: seq<T>, key: T -> real): (r: seq<T>)
    ensures SortedBy(r, key)
    ensures multiset(r) == multiset(s)
    ensures |r| == |s|
  {
    if s == [] then
      []
    else
      assert s == [s[0]] + s[1..];
      Insert(s[0], Sort(s[1..], key), key)
  }

  /** The first element of `s`, in input order, among those of smallest key. */
  function FirstMinimal<T>(s: seq<T>, key: T -> real): (r: T)
    requires |s| > 0
    ensures r in s
    ensures forall y :: y in s ==> key(r) <= key(y)
    ensures exists k :: 0 <= k < |s| && s[k] == r && forall j :: 0 <= j < k ==> key(s[j]) > key(r)
  {
    if |s| == 1 then
      s[0]
    else
      var m := FirstMinimal(s[1..], key);
      if key(s[0]) <= key(m) then
        s[0]
      else
        assert forall j :: 1 <= j < |s| ==> s[j] == s[1..][j - 1];
        m
  }

  /** The elements of `s` whose key is exactly `k`, in their original order. */
  function WithKey<T>(s: seq<T>, key: T -> real, k: real): seq<T> {
    if s == [] then []
    else (if key(s[0]) == k then [s[0]] else []) + WithKey(s[1..], key, k)
  }

  /** The sorted list starts with the earliest element of smallest key. */
  lemma {:induction false} SortHead<T>(s: seq<T>, key: T -> real)
    requires |s| > 0
    ensures Sort(s, key)[0] == FirstMinimal(s, key)
  {
    if |s| > 1 {
      SortHead(s[1..], key);
    }
  }

  /** Inserting `x` keeps the elements of every key in their relative order. */
  lemma {:induction false} InsertWithKey<T>(x: T, s: seq<T>, key: T -> real, k: real)
    requires SortedBy(s, key)
    ensures WithKey(Insert(x, s, key), key, k)
         == (if key(x) == k then [x] else []) + WithKey(s, key, k)
  {
    var r := Insert(x, s, key);
    if s == [] || key(x) <= key(s[0]) {
      assert r[1..] == s;
    } else {
      var t := Insert(x, s[1..], key);
      InsertWithKey(x, s[1..], key, k);
      var xs: seq<T> := if key(x) == k then [x] else [];
      var hs: seq<T> := if key(s[0]) == k then [s[0]] else [];
      var w := WithKey(s[1..], key, k);
      Swap(xs, hs, w);
      assert r[1..] == t;
    }
  }

  /**
   * Two lists of which one is empty may change places in front of a third:
   * when `x` passes the head `s[0]` during insertion, at most one of them has
   * key `k`, so their order among the elements of key `k` does not matter.
   */
  lemma Swap<T>(xs: seq<T>, hs: seq<T>, w: seq<T>)
    requires xs == [] || hs == []
    ensures hs + (xs + w) == xs + (hs + w)
  {
  }

  /** Stability: for every key, the sort keeps the elements with that key in input order. */
  lemma {:induction false} SortStable<T>(s: seq<T>, key: T -> real, k: real)
    ensures WithKey(Sort(s, key), key, k) == WithKey(s, key, k)
  {
    if s != [] {
      SortStable(s[1..], key, k);
      InsertWithKey(s[0], Sort(s[1..], key), key, k);
    }
  }

  /** An element found at two positions occurs at least twice. */
  lemma RepeatCount<T>(s: seq<T>, i: int, j: int)
    requires 0 <= i < j < |s| && s[i] == s[j]
    ensures multiset(s)[s[i]] >= 2
  {
    assert s == s[..j] + [s[j]] + s[j + 1..];
    assert s[i] in multiset(s[..j]);
  }

  /** When `f` tells the elements of `s` apart, each element occurs once. */
  lemma {:induction false} DistinctKeysCount<T, K>(s: seq<T>, f: T -> K, x: T)
    requires forall i, j :: 0 <= i < j < |s| ==> f(s[i]) != f(s[j])
    ensures multiset(s)[x] <= 1
  {
    if s != [] {
      var t := s[1..];
      assert s == [s[0]] + t;
      DistinctKeysCount(t, f, x);
      if s[0] == x {
        assert forall k :: 0 <= k < |t| ==> t[k] != x by {
          forall k | 0 <= k < |t| ensures t[k] != x {
            assert f(s[0]) != f(s[k + 1]);
          }
        }
        assert x !in t;
      }
    }
  }

  /** A permutation of a list whose keys are pairwise different has pairwise different keys. */
  lemma PermutationKeepsKeysDistinct<T, K>(a: seq<T>, b: seq<T>, f: T -> K)
    requires multiset(a) == multiset(b)
    requires forall i, j :: 0 <= i < j < |a| ==> f(a[i]) != f(a[j])
    ensures forall i, j :: 0 <= i < j < |b| ==> f(b[i]) != f(b[j])
  {
    forall i, j | 0 <= i < j < |b| ensures f(b[i]) != f(b[j]) {
      if b[i] == b[j] {
        RepeatCount(b, i, j);
        DistinctKeysCount(a, f, b[i]);
      } else {
        assert b[i] in multiset(a) && b[j] in multiset(a);
        var k :| 0 <= k < |a| && a[k] == b[i];
        var l :| 0 <= l < |a| && a[l] == b[j];
        assert k != l;
        if k < l {
          assert f(a[k]) != f(a[l]);
        } else {
          assert f(a[l]) != f(a[k]);
        }
      }
    }
  }
}
