/** A stable sort by a comparison, the behaviour `Array.prototype.sort`
    has had since ECMAScript 2019: the result is a permutation of the input,
    ordered by the comparison, and elements the comparison cannot tell apart
    keep their input order. */
module Sorting {

  /** `le` is total and transitive: what a consistent sort comparator
      describes. */
  ghost predicate TotalPreorder<T(!new)>(le: (T, T) -> bool) {
    && (forall a, b :: le(a, b) || le(b, a))
    && (forall a, b, c :: le(a, b) && le(b, c) ==> le(a, c))
  }

  predicate Sorted<T>(s: seq<T>, le: (T, T) -> bool) {
    forall i, j :: 0 <= i < j < |s| ==> le(s[i], s[j])
  }

  /** Inserts `x` after every leading element that is not greater than it. */
  function Insert<T>(x: T, s: seq<T>, le: (T, T) -> bool): seq<T>
  {
    if |s| == 0 then [x]
    else if le(s[0], x) then [s[0]] + Insert(x, s[1..], le)
    else [x] + s
  }

  /** Insertion sort, taking the elements of `xs` from first to last. */
  function SortBy<T(==)>(xs: seq<T>, le: (T, T) -> bool): (r: seq<T>)
    ensures multiset(r) == multiset(xs)
    decreases |xs|
  {
    if |xs| == 0 then []
    else
      var init := xs[..|xs| - 1];
      assert xs == init + [xs[|xs| - 1]];
      InsertPermutes(xs[|xs| - 1], SortBy(init, le), le);
      Insert(xs[|xs| - 1], SortBy(init, le), le)
  }

  lemma {:induction false} InsertPermutes<T>(x: T, s: seq<T>, le: (T, T) -> bool)
    ensures multiset(Insert(x, s, le)) == multiset(s) + multiset{x}
    decreases |s|
  {
    if |s| > 0 && le(s[0], x) {
      InsertPermutes(x, s[1..], le);
      assert s == [s[0]] + s[1..];
    }
  }

  lemma {:induction false} InsertSorted<T(!new)>(x: T, s: seq<T>, le: (T, T) -> bool)
    requires TotalPreorder(le)
    requires Sorted(s, le)
    ensures Sorted(Insert(x, s, le), le)
    decreases |s|
  {
    if |s| > 0 {
      if le(s[0], x) {
        var t := Insert(x, s[1..], le);
        InsertSorted(x, s[1..], le);
        InsertPermutes(x, s[1..], le);
        forall j | 0 <= j < |t| ensures le(s[0], t[j]) {
          assert t[j] in multiset(t);
          if t[j] != x {
            assert t[j] in multiset(s[1..]);
            var k :| 0 <= k < |s[1..]| && s[1..][k] == t[j];
            assert s[k + 1] == t[j];
          }
        }
      } else {
        assert le(x, s[0]);
      }
    }
  }

  /** The sorted result is ordered by `le`. */
  lemma {:induction false} SortBySorted<T(!new)>(xs: seq<T>, le: (T, T) -> bool)
    requires TotalPreorder(le)
    ensures Sorted(SortBy(xs, le), le)
    decreases |xs|
  {
    if |xs| > 0 {
      var init := xs[..|xs| - 1];
      SortBySorted(init, le);
      InsertSorted(xs[|xs| - 1], SortBy(init, le), le);
    }
  }

  /** The elements of `xs` that `le` ranks equal to `k`, in their order. */
  function EqualRank<T>(xs: seq<T>, le: (T, T) -> bool, k: T): (r: seq<T>)
    decreases |xs|
  {
    if |xs| == 0 then []
    else (if le(xs[0], k) && le(k, xs[0]) then [xs[0]] else []) + EqualRank(xs[1..], le, k)
  }

  lemma {:induction false} EqualRankAppend<T>(xs: seq<T>, ys: seq<T>, le: (T, T) -> bool, k: T)
    ensures EqualRank(xs + ys, le, k) == EqualRank(xs, le, k) + EqualRank(ys, le, k)
    decreases |xs|
  {
    if |xs| == 0 {
      assert xs + ys == ys;
    } else {
      assert (xs + ys)[1..] == xs[1..] + ys;
      EqualRankAppend(xs[1..], ys, le, k);
    }
  }

  lemma {:induction false} EqualRankNone<T>(s: seq<T>, le: (T, T) -> bool, k: T)
    requires forall i :: 0 <= i < |s| ==> !(le(s[i], k) && le(k, s[i]))
    ensures EqualRank(s, le, k) == []
    decreases |s|
  {
    if |s| > 0 {
      EqualRankNone(s[1..], le, k);
    }
  }

  lemma {:induction false} InsertStable<T(!new)>(x: T, s: seq<T>, le: (T, T) -> bool, k: T)
    requires TotalPreorder(le)
    requires Sorted(s, le)
    ensures EqualRank(Insert(x, s, le), le, k) == EqualRank(s, le, k) + EqualRank([x], le, k)
    decreases |s|
  {
    if |s| == 0 {
    } else if le(s[0], x) {
      InsertStable(x, s[1..], le, k);
    } else if le(x, k) && le(k, x) {
      forall i | 0 <= i < |s| ensures !(le(s[i], k) && le(k, s[i])) {
        if i > 0 { assert le(s[0], s[i]); }
      }
      EqualRankNone(s, le, k);
    }
  }

  /** Stability: for every rank, the elements of that rank appear in the
      result in exactly their input order. */
  lemma {:induction false} SortByStable<T(!new)>(xs: seq<T>, le: (T, T) -> bool, k: T)
    requires TotalPreorder(le)
    ensures EqualRank(SortBy(xs, le), le, k) == EqualRank(xs, le, k)
    decreases |xs|
  {
    if |xs| > 0 {
      var init := xs[..|xs| - 1];
      var x := xs[|xs| - 1];
      assert xs == init + [x];
      SortByStable(init, le, k);
      SortBySorted(init, le);
      InsertStable(x, SortBy(init, le), le, k);
      EqualRankAppend(init, [x], le, k);
    }
  }
}
