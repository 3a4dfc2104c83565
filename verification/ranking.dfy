/**
 * Ranking by score, as the search routes do it with Python's stable
 * `list.sort(key=..., reverse=True)` followed by a `[:top_k]` slice
 * (ai-recrutement-backend/app/api/matching.py).
 */
module Ranking {
  import opened Strings

  /** Keys never increase along the sequence. */
  predicate SortedDesc<T>(xs: seq<T>, key: T -> int) {
    forall i, j :: 0 <= i < j < |xs| ==> key(xs[i]) >= key(xs[j])
  }

  /** Every element's key is at most `k`. */
  predicate AllAtMost<T>(xs: seq<T>, key: T -> int, k: int) {
    forall i :: 0 <= i < |xs| ==> key(xs[i]) <= k
  }

  /** Putting `x` in front of a sorted sequence whose keys are at most its
      own keeps it sorted. */
  lemma ConsSorted<T>(x: T, xs: seq<T>, key: T -> int)
    requires SortedDesc(xs, key) && AllAtMost(xs, key, key(x))
    ensures SortedDesc([x] + xs, key)
  {
    assert forall i :: 1 <= i < |[x] + xs| ==> ([x] + xs)[i] == xs[i - 1];
  }

  lemma AllAtMostCons<T>(y: T, ys: seq<T>, key: T -> int, k: int)
    requires key(y) <= k && AllAtMost(ys, key, k)
    ensures AllAtMost([y] + ys, key, k)
  {
    assert forall i :: 1 <= i < |[y] + ys| ==> ([y] + ys)[i] == ys[i - 1];
  }

  /** Inserts `x` after every element whose key is at least its own, so an
      element arriving later stays behind the equal ones already there. */
  function InsertDesc<T(==)>(x: T, xs: seq<T>, key: T -> int): (r: seq<T>)
    requires SortedDesc(xs, key)
    ensures SortedDesc(r, key)
    ensures multiset(r) == multiset(xs) + multiset{x}
    decreases |xs|, 0
  {
    if xs == [] then [x]
    else if key(xs[0]) >= key(x) then
      var tail := xs[1..];
      assert xs == [xs[0]] + tail;
      assert SortedDesc(tail, key);
      var rest := InsertDesc(x, tail, key);
      InsertDescBound(x, tail, key, key(xs[0]));
      ConsSorted(xs[0], rest, key);
      assert multiset(xs) == multiset{xs[0]} + multiset(tail);
      [xs[0]] + rest
    else
      assert AllAtMost(xs, key, key(x));
      ConsSorted(x, xs, key);
      [x] + xs
  }

  /** Inserting an element no greater than a bound into elements no greater
      than it keeps every key under the bound. */
  lemma {:induction false} InsertDescBound<T>(x: T, xs: seq<T>, key: T -> int, k: int)
    requires SortedDesc(xs, key) && AllAtMost(xs, key, k) && key(x) <= k
    ensures AllAtMost(InsertDesc(x, xs, key), key, k)
    decreases |xs|, 1
  {
    if xs != [] && key(xs[0]) >= key(x) {
      var tail := xs[1..];
      assert xs == [xs[0]] + tail;
      assert SortedDesc(tail, key) && AllAtMost(tail, key, k);
      InsertDescBound(x, tail, key, k);
      AllAtMostCons(xs[0], InsertDesc(x, tail, key), key, k);
    } else if xs != [] {
      AllAtMostCons(x, xs, key, k);
    }
  }

  // ---------------------------------------------------------------------------
  // Stability
  // ---------------------------------------------------------------------------

  /** The elements whose key is `k`, in their order: a sort is stable when
      it leaves this subsequence unchanged for every key. */
  function WithKey<T>(xs: seq<T>, key: T -> int, k: int): (r: seq<T>)
    ensures |r| <= |xs|
  {
    if xs == [] then []
    else (if key(xs[0]) == k then [xs[0]] else []) + WithKey(xs[1..], key, k)
  }

  /** The elements with key `k` of two runs are those of the first run, then
      those of the second. */
  lemma {:induction false} WithKeyAppend<T>(a: seq<T>, b: seq<T>, key: T -> int, k: int)
    ensures WithKey(a + b, key, k) == WithKey(a, key, k) + WithKey(b, key, k)
    decreases |a|
  {
    if a == [] {
      assert a + b == b;
    } else {
      var c := a + b;
      var h := if key(a[0]) == k then [a[0]] else [];
      assert c[0] == a[0] && c[1..] == a[1..] + b;
      assert WithKey(c, key, k) == h + WithKey(a[1..] + b, key, k);
      WithKeyAppend(a[1..], b, key, k);
      assert WithKey(a, key, k) == h + WithKey(a[1..], key, k);
    }
  }

  /** No element has key `k` when every key is below it. */
  lemma {:induction false} WithKeyNone<T>(xs: seq<T>, key: T -> int, m: int, k: int)
    requires AllAtMost(xs, key, m) && m < k
    ensures WithKey(xs, key, k) == []
    decreases |xs|
  {
    if xs != [] {
      assert AllAtMost(xs[1..], key, m);
      WithKeyNone(xs[1..], key, m, k);
    }
  }

  /** When every key is `k`, every element is kept. */
  lemma {:induction false} WithKeyAll<T>(xs: seq<T>, key: T -> int, k: int)
    requires forall i :: 0 <= i < |xs| ==> key(xs[i]) == k
    ensures WithKey(xs, key, k) == xs
    decreases |xs|
  {
    if xs != [] {
      assert forall i :: 0 <= i < |xs[1..]| ==> xs[1..][i] == xs[i + 1];
      WithKeyAll(xs[1..], key, k);
      assert xs == [xs[0]] + xs[1..];
    }
  }

  /** A selection from elements that all have key `k`, keeping the earliest
      of them in order, is a prefix of them. */
  lemma SameKeyPrefix<T>(xs: seq<T>, kept: seq<T>, key: T -> int, k: int)
    requires forall i :: 0 <= i < |xs| ==> key(xs[i]) == k
    requires multiset(kept) <= multiset(xs)
    requires WithKey(kept, key, k) <= WithKey(xs, key, k)
    ensures kept <= xs
  {
    WithKeyAll(xs, key, k);
    forall i | 0 <= i < |kept|
      ensures key(kept[i]) == k
    {
      assert kept[i] in multiset(kept);
      var j :| 0 <= j < |xs| && xs[j] == kept[i];
    }
    WithKeyAll(kept, key, k);
  }

  /** Two prefixes of one sequence with the same length are the same. */
  lemma SamePrefix<T>(a: seq<T>, b: seq<T>, xs: seq<T>)
    requires a <= xs && b <= xs && |a| == |b|
    ensures a == b
  {
    assert a == xs[..|a|] && b == xs[..|b|];
  }

  /** Inserting `x` puts it behind the elements of equal key already there,
      and moves none of them. */
  lemma {:induction false} InsertDescStable<T>(x: T, xs: seq<T>, key: T -> int, k: int)
    requires SortedDesc(xs, key)
    ensures WithKey(InsertDesc(x, xs, key), key, k) ==
      WithKey(xs, key, k) + (if key(x) == k then [x] else [])
    decreases |xs|
  {
    if xs == [] {
      assert InsertDesc(x, xs, key) == [x];
    } else if key(xs[0]) >= key(x) {
      var tail := xs[1..];
      assert SortedDesc(tail, key);
      var rest := InsertDesc(x, tail, key);
      assert InsertDesc(x, xs, key) == [xs[0]] + rest;
      InsertDescStable(x, tail, key, k);
      var h := if key(xs[0]) == k then [xs[0]] else [];
      assert WithKey([xs[0]] + rest, key, k) == h + WithKey(rest, key, k);
      assert WithKey(xs, key, k) == h + WithKey(tail, key, k);
    } else {
      assert InsertDesc(x, xs, key) == [x] + xs;
      assert WithKey([x] + xs, key, k) == (if key(x) == k then [x] else []) + WithKey(xs, key, k) by {
        assert ([x] + xs)[1..] == xs;
      }
      if key(x) == k {
        WithKeyNone(xs, key, key(xs[0]), k);
      }
    }
  }

  /** The sequence sorted by decreasing key; equal keys keep their order. */
  function SortDesc<T(==)>(xs: seq<T>, key: T -> int): (r: seq<T>)
    ensures SortedDesc(r, key)
    ensures multiset(r) == multiset(xs)
    ensures |r| == |xs|
    ensures forall k :: WithKey(r, key, k) == WithKey(xs, key, k)
    decreases |xs|
  {
    if xs == [] then []
    else
      var n := |xs| - 1;
      var init := xs[..n];
      assert xs == init + [xs[n]];
      assert multiset(xs) == multiset(init) + multiset{xs[n]};
      var sorted := SortDesc(init, key);
      var r := InsertDesc(xs[n], sorted, key);
      assert |r| == |multiset(r)|;
      InsertLastStable(init, xs[n], sorted, key);
      r
  }

  /** Inserting the last element into a stable sort of the others gives a
      stable sort of the whole. */
  lemma InsertLastStable<T>(init: seq<T>, x: T, sorted: seq<T>, key: T -> int)
    requires SortedDesc(sorted, key)
    requires forall k :: WithKey(sorted, key, k) == WithKey(init, key, k)
    ensures forall k :: WithKey(InsertDesc(x, sorted, key), key, k) == WithKey(init + [x], key, k)
  {
    forall k
      ensures WithKey(InsertDesc(x, sorted, key), key, k) == WithKey(init + [x], key, k)
    {
      InsertDescStable(x, sorted, key, k);
      WithKeyAppend(init, [x], key, k);
      assert WithKey([x], key, k) == (if key(x) == k then [x] else []) + WithKey([], key, k);
    }
  }

  /** Keeping a prefix of the sorted sequence keeps, for every key, the
      earliest elements of that key in the input. */
  lemma SortedPrefixStable<T>(xs: seq<T>, key: T -> int, n: nat, k: int)
    requires n <= |xs|
    ensures WithKey(SortDesc(xs, key)[..n], key, k) <= WithKey(xs, key, k)
  {
    var s := SortDesc(xs, key);
    assert s == s[..n] + s[n..];
    WithKeyAppend(s[..n], s[n..], key, k);
  }

  /** The first `k` of a ranking are its best: no element left out has a
      higher key than one kept. */
  lemma TopKBest<T>(sorted: seq<T>, key: T -> int, k: int, i: nat, j: nat)
    requires SortedDesc(sorted, key)
    requires i < |PyPrefix(sorted, k)| <= j < |sorted|
    ensures key(sorted[j]) <= key(PyPrefix(sorted, k)[i])
  {
    assert PyPrefix(sorted, k)[i] == sorted[i];
  }

  /** A prefix of a sorted sequence is sorted, and none of the rest beats
      any element of the prefix. */
  lemma PrefixBeatsRest<T>(xs: seq<T>, n: nat, key: T -> int)
    requires SortedDesc(xs, key) && n <= |xs|
    ensures SortedDesc(xs[..n], key)
    ensures forall i, x :: 0 <= i < n && x in multiset(xs[n..]) ==> key(x) <= key(xs[i])
  {
    forall i, x | 0 <= i < n && x in multiset(xs[n..])
      ensures key(x) <= key(xs[i])
    {
      var j :| 0 <= j < |xs[n..]| && xs[n..][j] == x;
      assert xs[n + j] == x;
    }
  }

  /** What a prefix leaves of a sequence's elements is the rest of it. */
  lemma PrefixMultiset<T>(xs: seq<T>, n: nat)
    requires n <= |xs|
    ensures multiset(xs[..n]) <= multiset(xs)
    ensures multiset(xs) - multiset(xs[..n]) == multiset(xs[n..])
  {
    assert xs == xs[..n] + xs[n..];
    assert multiset(xs) == multiset(xs[..n]) + multiset(xs[n..]);
  }
}
