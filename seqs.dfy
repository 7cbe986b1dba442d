/** Sequence combinators behind the screens' `Array.prototype.filter` calls, and the
    pairwise property used to talk about identifier uniqueness. */
module Seqs {

  /** `s.filter(p)`: the elements of `s` that satisfy `p`, in their original order. */
  function Filter<T(!new)>(s: seq<T>, p: T -> bool): (r: seq<T>)
    ensures |r| <= |s|
    ensures forall x :: x in r <==> x in s && p(x)
    decreases |s|
  {
    if s == [] then [] else (if p(s[0]) then [s[0]] else []) + Filter(s[1..], p)
  }

  /** Filtering distributes over concatenation, so it keeps the relative order of the
      elements it keeps. */
  lemma {:induction false} FilterAppend<T(!new)>(a: seq<T>, b: seq<T>, p: T -> bool)
    ensures Filter(a + b, p) == Filter(a, p) + Filter(b, p)
    decreases |a|
  {
    if a == [] {
      assert a + b == b;
    } else {
      assert (a + b)[0] == a[0];
      assert (a + b)[1..] == a[1..] + b;
      FilterAppend(a[1..], b, p);
    }
  }

  /** Filtering keeps every copy of a passing element and no copy of a failing one. */
  lemma {:induction false} FilterCount<T(!new)>(s: seq<T>, p: T -> bool, x: T)
    ensures multiset(Filter(s, p))[x] == if p(x) then multiset(s)[x] else 0
    decreases |s|
  {
    if s != [] {
      FilterCount(s[1..], p, x);
      assert s == [s[0]] + s[1..];
    }
  }

  /** Filtering returns `s` itself exactly when every element of `s` passes. */
  lemma {:induction false} FilterIdentity<T(!new)>(s: seq<T>, p: T -> bool)
    ensures Filter(s, p) == s <==> forall x :: x in s ==> p(x)
    decreases |s|
  {
    if s != [] {
      FilterIdentity(s[1..], p);
      if forall x :: x in s ==> p(x) {
        assert forall x :: x in s[1..] ==> x in s;
        assert [s[0]] + s[1..] == s;
      }
    }
  }

  /** Filtering twice with the same predicate is filtering once. */
  lemma FilterIdempotent<T(!new)>(s: seq<T>, p: T -> bool)
    ensures Filter(Filter(s, p), p) == Filter(s, p)
  {
    FilterIdentity(Filter(s, p), p);
  }

  /** `R` holds of every pair of elements in the order they appear. */
  predicate Pairwise<T>(s: seq<T>, R: (T, T) -> bool) {
    forall i, j :: 0 <= i < j < |s| ==> R(s[i], s[j])
  }

  /** Appending `x` keeps a pairwise property exactly when `x` is related to everything
      before it. */
  lemma PairwiseAppend<T>(s: seq<T>, x: T, R: (T, T) -> bool)
    ensures Pairwise(s + [x], R) <==> Pairwise(s, R) && forall y :: y in s ==> R(y, x)
  {
    var t := s + [x];
    if Pairwise(t, R) {
      forall y | y in s ensures R(y, x) {
        var k :| 0 <= k < |s| && s[k] == y;
        assert t[k] == y && t[|s|] == x;
      }
      forall i, j | 0 <= i < j < |s| ensures R(s[i], s[j]) {
        assert t[i] == s[i] && t[j] == s[j];
      }
    }
    if Pairwise(s, R) && forall y :: y in s ==> R(y, x) {
      forall i, j | 0 <= i < j < |t| ensures R(t[i], t[j]) {
        if j == |s| {
          assert t[i] == s[i] && s[i] in s;
        } else {
          assert t[i] == s[i] && t[j] == s[j];
        }
      }
    }
  }

  /** A pairwise property of `s` holds of every filtered version of `s`. */
  lemma {:induction false} FilterPairwise<T(!new)>(s: seq<T>, p: T -> bool, R: (T, T) -> bool)
    requires Pairwise(s, R)
    ensures Pairwise(Filter(s, p), R)
    decreases |s|
  {
    if s != [] {
      var t := s[1..];
      forall i, j | 0 <= i < j < |t| ensures R(t[i], t[j]) {
        assert t[i] == s[i + 1] && t[j] == s[j + 1];
      }
      FilterPairwise(t, p, R);
      var f := Filter(t, p);
      if p(s[0]) {
        var r := [s[0]] + f;
        assert Filter(s, p) == r;
        forall i, j | 0 <= i < j < |r| ensures R(r[i], r[j]) {
          if i == 0 {
            assert r[j] == f[j - 1] && f[j - 1] in f;
            var k :| 0 <= k < |t| && t[k] == r[j];
            assert s[0] == r[0] && s[k + 1] == r[j];
          } else {
            assert r[i] == f[i - 1] && r[j] == f[j - 1];
          }
        }
      } else {
        assert Filter(s, p) == f;
      }
    }
  }
}
