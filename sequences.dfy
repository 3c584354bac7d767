/**
 * `Array.prototype.filter` over Dafny sequences, and what it promises:
 * the kept elements are exactly those that satisfy the predicate, with their
 * multiplicities, in their original order.
 */
module Sequences {

  /** The elements of `s` that satisfy `keep`, in the order they appear in `s`. */
  function Filter<T>(s: seq<T>, keep: T -> bool): seq<T>
    decreases |s|
  {
    if s == [] then []
    else Filter(s[..|s| - 1], keep) + (if keep(s[|s| - 1]) then [s[|s| - 1]] else [])
  }

  /** `t` is obtained from `s` by deleting some elements and keeping the order of the rest. */
  predicate IsSubsequence<T(==)>(t: seq<T>, s: seq<T>)
    decreases |s|
  {
    if s == [] then t == []
    else
      (t != [] && t[|t| - 1] == s[|s| - 1] && IsSubsequence(t[..|t| - 1], s[..|s| - 1]))
      || IsSubsequence(t, s[..|s| - 1])
  }

  lemma {:induction false} FilterIsSubsequence<T>(s: seq<T>, keep: T -> bool)
    ensures IsSubsequence(Filter(s, keep), s)
    decreases |s|
  {
    if s != [] {
      var init := s[..|s| - 1];
      FilterIsSubsequence(init, keep);
      var f := Filter(s, keep);
      if keep(s[|s| - 1]) {
        assert f == Filter(init, keep) + [s[|s| - 1]];
        assert f[..|f| - 1] == Filter(init, keep);
      } else {
        assert f == Filter(init, keep);
      }
    }
  }

  /** An element is in the filtered sequence exactly when it is in `s` and satisfies `keep`. */
  lemma {:induction false} FilterMembership<T>(s: seq<T>, keep: T -> bool, x: T)
    ensures x in Filter(s, keep) <==> x in s && keep(x)
    decreases |s|
  {
    if s != [] {
      var init := s[..|s| - 1];
      FilterMembership(init, keep, x);
      assert s == init + [s[|s| - 1]];
    }
  }

  /** Every copy of a kept element survives, and no copy of a dropped one does. */
  lemma {:induction false} FilterMultiplicity<T>(s: seq<T>, keep: T -> bool, x: T)
    ensures multiset(Filter(s, keep))[x] == if keep(x) then multiset(s)[x] else 0
    decreases |s|
  {
    if s != [] {
      var init := s[..|s| - 1];
      FilterMultiplicity(init, keep, x);
      assert s == init + [s[|s| - 1]];
    }
  }

  /** Filtering twice with the same predicate is filtering once. */
  lemma {:induction false} FilterIdempotent<T>(s: seq<T>, keep: T -> bool)
    ensures Filter(Filter(s, keep), keep) == Filter(s, keep)
    decreases |s|
  {
    if s != [] {
      var init := s[..|s| - 1];
      var last := s[|s| - 1];
      FilterIdempotent(init, keep);
      if keep(last) {
        var f := Filter(init, keep) + [last];
        assert Filter(s, keep) == f;
        assert f[..|f| - 1] == Filter(init, keep);
      } else {
        assert Filter(s, keep) == Filter(init, keep);
      }
    }
  }

  /** When every element satisfies `keep`, filtering changes nothing. */
  lemma {:induction false} FilterKeepsAll<T>(s: seq<T>, keep: T -> bool)
    requires forall i :: 0 <= i < |s| ==> keep(s[i])
    ensures Filter(s, keep) == s
    decreases |s|
  {
    if s != [] {
      FilterKeepsAll(s[..|s| - 1], keep);
    }
  }

  /** When no element satisfies `keep`, nothing is kept. */
  lemma {:induction false} FilterDropsAll<T>(s: seq<T>, keep: T -> bool)
    requires forall i :: 0 <= i < |s| ==> !keep(s[i])
    ensures Filter(s, keep) == []
    decreases |s|
  {
    if s != [] {
      FilterDropsAll(s[..|s| - 1], keep);
    }
  }

  /** A predicate and its negation split `s`: the two filtered lengths add up to `|s|`. */
  lemma {:induction false} FilterSplits<T>(s: seq<T>, keep: T -> bool, drop: T -> bool)
    requires forall x :: drop(x) == !keep(x)
    ensures |Filter(s, keep)| + |Filter(s, drop)| == |s|
    decreases |s|
  {
    if s != [] {
      FilterSplits(s[..|s| - 1], keep, drop);
    }
  }
}
