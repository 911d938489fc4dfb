/** Generic list operations shared by the stores and the search engine:
    `Array.prototype.filter`, insertion-ordered de-duplication (what a
    JavaScript `Set` built by successive `add` calls keeps), and
    `slice(0, n)`. */
module Seqs {

  /** `xs.filter(f)`. */
  function Filter<T(==)>(xs: seq<T>, f: T -> bool): (r: seq<T>)
    ensures |r| <= |xs|
    ensures forall i :: 0 <= i < |r| ==> r[i] in xs && f(r[i])
    ensures forall i :: 0 <= i < |xs| && f(xs[i]) ==> xs[i] in r
    decreases |xs|
  {
    if |xs| == 0 then []
    else (if f(xs[0]) then [xs[0]] else []) + Filter(xs[1..], f)
  }

  /** `xs` can be obtained from `ys` by deleting elements. */
  predicate IsSubseq<T(==)>(xs: seq<T>, ys: seq<T>)
    decreases |ys|
  {
    |xs| == 0 ||
    (|ys| > 0 && ((xs[0] == ys[0] && IsSubseq(xs[1..], ys[1..])) || IsSubseq(xs, ys[1..])))
  }

  lemma {:induction false} FilterIsSubseq<T>(xs: seq<T>, f: T -> bool)
    ensures IsSubseq(Filter(xs, f), xs)
    decreases |xs|
  {
    if |xs| > 0 {
      FilterIsSubseq(xs[1..], f);
      var r := Filter(xs, f);
      if f(xs[0]) {
        assert r[0] == xs[0] && r[1..] == Filter(xs[1..], f);
      } else {
        assert r == Filter(xs[1..], f);
        if |r| > 0 {
          assert IsSubseq(r, xs[1..]);
        }
      }
    }
  }

  lemma {:induction false} FilterAppend<T>(xs: seq<T>, ys: seq<T>, f: T -> bool)
    ensures Filter(xs + ys, f) == Filter(xs, f) + Filter(ys, f)
    decreases |xs|
  {
    if |xs| > 0 {
      assert (xs + ys)[1..] == xs[1..] + ys;
      FilterAppend(xs[1..], ys, f);
    } else {
      assert xs + ys == ys;
    }
  }

  /** Two tests that agree on every element filter alike. */
  lemma {:induction false} FilterCongruence<T>(xs: seq<T>, f: T -> bool, g: T -> bool)
    requires forall i :: 0 <= i < |xs| ==> f(xs[i]) == g(xs[i])
    ensures Filter(xs, f) == Filter(xs, g)
    decreases |xs|
  {
    if |xs| > 0 {
      FilterCongruence(xs[1..], f, g);
    }
  }

  /** Filtering keeps a list whose every element passes. */
  lemma {:induction false} FilterKeepsAll<T>(xs: seq<T>, f: T -> bool)
    requires forall i :: 0 <= i < |xs| ==> f(xs[i])
    ensures Filter(xs, f) == xs
    decreases |xs|
  {
    if |xs| > 0 {
      FilterKeepsAll(xs[1..], f);
    }
  }

  /** Filtering empties a list no element of which passes. */
  lemma {:induction false} FilterDropsAll<T>(xs: seq<T>, f: T -> bool)
    requires forall i :: 0 <= i < |xs| ==> !f(xs[i])
    ensures Filter(xs, f) == []
    decreases |xs|
  {
    if |xs| > 0 {
      FilterDropsAll(xs[1..], f);
    }
  }

  /** Filtering keeps every relation that held between earlier and later
      elements. */
  lemma {:induction false} FilterPairwise<T>(xs: seq<T>, f: T -> bool, rel: (T, T) -> bool)
    requires forall i, j :: 0 <= i < j < |xs| ==> rel(xs[i], xs[j])
    ensures forall i, j :: 0 <= i < j < |Filter(xs, f)| ==> rel(Filter(xs, f)[i], Filter(xs, f)[j])
    decreases |xs|
  {
    if |xs| > 0 {
      FilterPairwise(xs[1..], f, rel);
      var t := Filter(xs[1..], f);
      forall j | 0 <= j < |t| ensures rel(xs[0], t[j]) {
        var m :| 0 <= m < |xs[1..]| && xs[1..][m] == t[j];
        assert xs[m + 1] == t[j];
      }
    }
  }

  /** No element occurs twice. */
  predicate Distinct<T(==)>(xs: seq<T>) {
    forall i, j :: 0 <= i < j < |xs| ==> xs[i] != xs[j]
  }

  /** A list without repeats holds each value at most once. */
  lemma {:induction false} DistinctOnce<T>(xs: seq<T>, x: T)
    requires Distinct(xs)
    ensures multiset(xs)[x] <= 1
    decreases |xs|
  {
    if |xs| > 0 {
      assert xs == [xs[0]] + xs[1..];
      DistinctOnce(xs[1..], x);
      if xs[0] == x {
        assert x !in xs[1..] by {
          forall j | 0 <= j < |xs[1..]| ensures xs[1..][j] != x {
            assert xs[1..][j] == xs[j + 1];
          }
        }
      }
    }
  }

  /** The test "is not `x`". */
  function Except<T(==)>(x: T): T -> bool {
    y => y != x
  }

  /** Dropping every `x` shortens the list by the number of `x`s. */
  lemma {:induction false} FilterExceptLength<T>(xs: seq<T>, x: T)
    ensures |Filter(xs, Except(x))| == |xs| - multiset(xs)[x]
    decreases |xs|
  {
    if |xs| > 0 {
      assert xs == [xs[0]] + xs[1..];
      FilterExceptLength(xs[1..], x);
    }
  }

  /** Filtering a list without repeats leaves one without repeats. */
  lemma FilterDistinct<T>(xs: seq<T>, f: T -> bool)
    requires Distinct(xs)
    ensures Distinct(Filter(xs, f))
  {
    FilterPairwise(xs, f, (a: T, b: T) => a != b);
  }

  /** A prefix no longer than the left operand is a prefix of it. */
  lemma PrefixOfAppend<T>(xs: seq<T>, ys: seq<T>, k: nat)
    requires k <= |xs|
    ensures (xs + ys)[..k] == xs[..k]
  {
  }

  /** A sequence cut around position `k`, before and after replacing the
      element there. */
  lemma SpliceAt<T>(xs: seq<T>, k: int, v: T)
    requires 0 <= k < |xs|
    ensures xs == xs[..k] + [xs[k]] + xs[k + 1..]
    ensures xs[k := v] == xs[..k] + [v] + xs[k + 1..]
  {
  }

  /** Position of the first occurrence of `x` in `xs`. */
  function IndexOf<T(==)>(xs: seq<T>, x: T): (k: nat)
    requires x in xs
    ensures k < |xs| && xs[k] == x
    ensures forall i :: 0 <= i < k ==> xs[i] != x
  {
    if xs[0] == x then 0 else 1 + IndexOf(xs[1..], x)
  }

  lemma IndexOfAppend<T>(xs: seq<T>, y: T, x: T)
    requires x in xs
    ensures x in xs + [y] && IndexOf(xs + [y], x) == IndexOf(xs, x)
  {
    var k := IndexOf(xs, x);
    var k' := IndexOf(xs + [y], x);
    assert (xs + [y])[k] == x;
    assert xs[k'] == x;
  }

  /** The distinct elements of `xs`, each kept at its first occurrence: the
      contents of a `Set` after adding the elements of `xs` in order. */
  function Dedup<T(==)>(xs: seq<T>): (r: seq<T>)
    ensures Distinct(r)
    ensures forall i :: 0 <= i < |r| ==> r[i] in xs
    ensures forall i :: 0 <= i < |xs| ==> xs[i] in r
    ensures |r| <= |xs|
    decreases |xs|
  {
    if |xs| == 0 then []
    else
      var d := Dedup(xs[..|xs| - 1]);
      var x := xs[|xs| - 1];
      assert xs == xs[..|xs| - 1] + [x];
      if x in d then d else d + [x]
  }

  /** Adding one more value to a `Set`: kept only when new. */
  lemma DedupSnoc<T>(xs: seq<T>, x: T)
    ensures Dedup(xs + [x]) == if x in xs then Dedup(xs) else Dedup(xs) + [x]
  {
    assert (xs + [x])[..|xs + [x]| - 1] == xs;
  }

  /** A list without repeats de-duplicates to itself. */
  lemma {:induction false} DedupOfDistinct<T>(xs: seq<T>)
    requires Distinct(xs)
    ensures Dedup(xs) == xs
    decreases |xs|
  {
    if |xs| > 0 {
      var init := xs[..|xs| - 1];
      assert Distinct(init);
      DedupOfDistinct(init);
      assert xs[|xs| - 1] !in init;
      assert init + [xs[|xs| - 1]] == xs;
    }
  }

  /** De-duplication keeps first-encounter order: of two kept values the one
      listed first occurs first in `xs`. */
  lemma {:induction false} DedupFirstEncounterOrder<T>(xs: seq<T>)
    ensures forall i, j :: 0 <= i < j < |Dedup(xs)| ==>
              IndexOf(xs, Dedup(xs)[i]) < IndexOf(xs, Dedup(xs)[j])
    decreases |xs|
  {
    if |xs| > 0 {
      var init := xs[..|xs| - 1];
      var x := xs[|xs| - 1];
      assert xs == init + [x];
      DedupFirstEncounterOrder(init);
      var d := Dedup(init);
      forall y | y in d ensures IndexOf(xs, y) == IndexOf(init, y) {
        IndexOfAppend(init, x, y);
      }
      if x !in d {
        assert x !in init;
        assert IndexOf(xs, x) == |init|;
      }
    }
  }

  /** De-duplication skips nothing: a value met before a kept value is kept
      ahead of it. */
  lemma {:induction false} DedupNoSkip<T>(xs: seq<T>)
    ensures forall s, j :: 0 <= j < |Dedup(xs)| && s in xs && IndexOf(xs, s) < IndexOf(xs, Dedup(xs)[j]) ==>
              s in Dedup(xs)[..j]
    decreases |xs|
  {
    if |xs| > 0 {
      var init := xs[..|xs| - 1];
      var d := Dedup(init);
      DedupNoSkip(init);
      forall s, j | 0 <= j < |Dedup(xs)| && s in xs && IndexOf(xs, s) < IndexOf(xs, Dedup(xs)[j])
        ensures s in Dedup(xs)[..j]
      {
        NoSkipStep(xs, s, j);
        if j < |d| {
          assert s in d[..j];
        }
      }
    }
  }

  /** The inductive step of `DedupNoSkip`: a value met before the kept value
      at `j` was met before the last element, at the same position, and the
      kept values up to `j` are those of the shorter list. */
  lemma NoSkipStep<T>(xs: seq<T>, s: T, j: int)
    requires |xs| > 0
    requires 0 <= j < |Dedup(xs)| && s in xs && IndexOf(xs, s) < IndexOf(xs, Dedup(xs)[j])
    ensures var init := xs[..|xs| - 1];
            var d := Dedup(init);
            && s in init && IndexOf(xs, s) == IndexOf(init, s)
            && (j < |d| ==> Dedup(xs)[..j] == d[..j] && IndexOf(xs, Dedup(xs)[j]) == IndexOf(init, d[j]))
            && (j >= |d| ==> Dedup(xs)[..j] == d)
  {
    var init := xs[..|xs| - 1];
    var x := xs[|xs| - 1];
    var d := Dedup(init);
    assert xs == init + [x];
    assert Dedup(xs) == if x in init then d else d + [x] by { DedupSnoc(init, x); }
    assert s in init && IndexOf(xs, s) == IndexOf(init, s) by {
      assert init[IndexOf(xs, s)] == s;
      IndexOfAppend(init, x, s);
    }
    if j < |d| {
      var e := d[j];
      assert Dedup(xs)[j] == e && Dedup(xs)[..j] == d[..j];
      IndexOfAppend(init, x, e);
    } else {
      assert Dedup(xs)[..j] == d;
    }
  }

  /** Adding more values to a `Set` never disturbs the ones already in it. */
  lemma {:induction false} DedupPrefix<T>(xs: seq<T>, ys: seq<T>)
    ensures Dedup(xs) <= Dedup(xs + ys)
    decreases |ys|
  {
    if |ys| == 0 {
      assert xs + ys == xs;
    } else {
      var init := ys[..|ys| - 1];
      DedupPrefix(xs, init);
      assert (xs + ys)[..|xs + ys| - 1] == xs + init;
    }
  }

  /** `xs.slice(0, n)`. */
  function Take<T>(xs: seq<T>, n: nat): (r: seq<T>)
    ensures |r| <= n && |r| <= |xs|
    ensures r <= xs
    ensures |xs| >= n ==> |r| == n
  {
    if |xs| <= n then xs else xs[..n]
  }

  /** The first `n` values a `Set` collects: values of `xs` in order of first
      occurrence, none passed over, and all of them when fewer than `n`. */
  lemma TakeDedupFirst<T>(xs: seq<T>, n: nat, r: seq<T>)
    requires r == Take(Dedup(xs), n)
    ensures forall i :: 0 <= i < |r| ==> r[i] in xs
    ensures forall i, j :: 0 <= i < j < |r| ==> IndexOf(xs, r[i]) < IndexOf(xs, r[j])
    ensures forall s, j :: 0 <= j < |r| && s in xs && IndexOf(xs, s) < IndexOf(xs, r[j]) ==> s in r[..j]
    ensures |r| < n ==> forall s :: s in xs ==> s in r
  {
    TakeDedupOrder(xs, n, r);
    TakeDedupNoSkip(xs, n, r);
    TakeDedupShort(xs, n, r);
  }

  lemma TakeDedupOrder<T>(xs: seq<T>, n: nat, r: seq<T>)
    requires r == Take(Dedup(xs), n)
    ensures forall i :: 0 <= i < |r| ==> r[i] in xs
    ensures forall i, j :: 0 <= i < j < |r| ==> IndexOf(xs, r[i]) < IndexOf(xs, r[j])
  {
    var d := Dedup(xs);
    assert forall i :: 0 <= i < |r| ==> r[i] == d[i];
    DedupFirstEncounterOrder(xs);
  }

  lemma TakeDedupNoSkip<T>(xs: seq<T>, n: nat, r: seq<T>)
    requires r == Take(Dedup(xs), n)
    ensures forall s, j :: 0 <= j < |r| && s in xs && IndexOf(xs, s) < IndexOf(xs, r[j]) ==> s in r[..j]
  {
    var d := Dedup(xs);
    assert forall i :: 0 <= i < |r| ==> r[i] == d[i] && r[..i] == d[..i];
    DedupNoSkip(xs);
  }

  lemma TakeDedupShort<T>(xs: seq<T>, n: nat, r: seq<T>)
    requires r == Take(Dedup(xs), n)
    ensures |r| < n ==> forall s :: s in xs ==> s in r
  {
    if |r| < n {
      assert r == Dedup(xs);
      forall s | s in xs ensures s in r {
        var k :| 0 <= k < |xs| && xs[k] == s;
      }
    }
  }

  /** The first `n` values a `Set` collects are fixed as soon as `n` distinct
      values have been seen. */
  lemma TakeDedupSettled<T>(xs: seq<T>, ys: seq<T>, n: nat)
    requires |Dedup(xs)| >= n
    ensures Take(Dedup(xs + ys), n) == Take(Dedup(xs), n)
  {
    DedupPrefix(xs, ys);
  }
}
