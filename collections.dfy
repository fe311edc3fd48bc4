/** Sequence helpers shared by the seating and question-paper modules: options,
    first-occurrence lookup, pandas-style "sorted unique keys", and weighted
    totals per key (the `groupby(...).sum()` / `.size()` pattern). */
module Collections {

  datatype Option<T> = None | Some(value: T)

  predicate Distinct<T(==)>(s: seq<T>) {
    forall i, j :: 0 <= i < j < |s| ==> s[i] != s[j]
  }

  /** Index of the first occurrence of `x` in `s`, or `|s|` when `x` is absent. */
  function IndexOf<T(==)>(s: seq<T>, x: T): (i: nat)
    ensures i <= |s|
    ensures i < |s| ==> s[i] == x
    ensures forall j :: 0 <= j < i ==> s[j] != x
    ensures i < |s| <==> x in s
  {
    if |s| == 0 then 0 else if s[0] == x then 0 else 1 + IndexOf(s[1..], x)
  }

  lemma IndexOfDistinct<T>(s: seq<T>, k: nat)
    requires Distinct(s) && k < |s|
    ensures IndexOf(s, s[k]) == k
  {
  }

  /** `lt` is a strict total order on T (as Python's `<` is on str, int and tuples of them). */
  ghost predicate StrictTotalOrder<T(!new)>(lt: (T, T) -> bool) {
    && (forall a :: !lt(a, a))
    && (forall a, b, c :: lt(a, b) && lt(b, c) ==> lt(a, c))
    && (forall a, b :: a != b ==> lt(a, b) || lt(b, a))
  }

  ghost predicate Increasing<T>(s: seq<T>, lt: (T, T) -> bool) {
    forall i, j :: 0 <= i < j < |s| ==> lt(s[i], s[j])
  }

  /** Insert `x` into a sorted sequence, keeping a single copy of equal values. */
  function InsertSorted<T(==,!new)>(x: T, s: seq<T>, lt: (T, T) -> bool): (r: seq<T>)
    ensures forall y :: y in r <==> y == x || y in s
  {
    if |s| == 0 then [x]
    else if x == s[0] then s
    else if lt(x, s[0]) then [x] + s
    else [s[0]] + InsertSorted(x, s[1..], lt)
  }

  /** The values of `xs` in ascending order without repetition: Python's
      `sorted(set(xs))`, and the key order of a pandas `groupby`. */
  function SortedDistinct<T(==,!new)>(xs: seq<T>, lt: (T, T) -> bool): (r: seq<T>)
    ensures forall y :: y in r <==> y in xs
  {
    if |xs| == 0 then []
    else InsertSorted(xs[|xs| - 1], SortedDistinct(xs[..|xs| - 1], lt), lt)
  }

  lemma {:induction false} InsertSortedIncreasing<T(!new)>(x: T, s: seq<T>, lt: (T, T) -> bool)
    requires StrictTotalOrder(lt) && Increasing(s, lt)
    ensures Increasing(InsertSorted(x, s, lt), lt)
  {
    if |s| == 0 || x == s[0] {
    } else if lt(x, s[0]) {
      var r := [x] + s;
      forall i, j | 0 <= i < j < |r| ensures lt(r[i], r[j]) {
        if i == 0 && j > 1 {
          assert lt(x, s[0]) && lt(s[0], s[j - 1]);
        }
      }
    } else {
      assert lt(s[0], x);
      InsertSortedIncreasing(x, s[1..], lt);
      var tail := InsertSorted(x, s[1..], lt);
      var r := [s[0]] + tail;
      forall i, j | 0 <= i < j < |r| ensures lt(r[i], r[j]) {
        if i == 0 {
          assert r[j] in tail;
          if r[j] != x {
            var m :| 0 <= m < |s[1..]| && s[1..][m] == r[j];
            assert s[m + 1] == r[j];
          }
        }
      }
    }
  }

  /** Sorted-unique keys are strictly increasing, hence each value appears once. */
  lemma {:induction false} SortedDistinctIncreasing<T(!new)>(xs: seq<T>, lt: (T, T) -> bool)
    requires StrictTotalOrder(lt)
    ensures Increasing(SortedDistinct(xs, lt), lt)
    ensures Distinct(SortedDistinct(xs, lt))
  {
    if |xs| > 0 {
      SortedDistinctIncreasing(xs[..|xs| - 1], lt);
      InsertSortedIncreasing(xs[|xs| - 1], SortedDistinct(xs[..|xs| - 1], lt), lt);
    }
    var r := SortedDistinct(xs, lt);
    forall i, j | 0 <= i < j < |r| ensures r[i] != r[j] {
      assert lt(r[i], r[j]);
    }
  }

  // ---------------------------------------------------------------------
  // Weighted totals per key.  An entry (k, w) is one table row with group
  // key k and a numeric column value w.

  /** Sum of the weights of the entries whose key is `k`. */
  function WeightOf<K(==)>(entries: seq<(K, nat)>, k: K): nat {
    if |entries| == 0 then 0
    else WeightOf(entries[..|entries| - 1], k)
         + (if entries[|entries| - 1].0 == k then entries[|entries| - 1].1 else 0)
  }

  /** Sum of the weights of the entries whose key satisfies `p`. */
  function SumWhere<K>(entries: seq<(K, nat)>, p: K -> bool): nat {
    if |entries| == 0 then 0
    else SumWhere(entries[..|entries| - 1], p)
         + (if p(entries[|entries| - 1].0) then entries[|entries| - 1].1 else 0)
  }

  /** Sum, over the keys in `keys` that satisfy `p`, of each key's total weight. */
  function KeySum<K(==)>(keys: seq<K>, entries: seq<(K, nat)>, p: K -> bool): nat {
    if |keys| == 0 then 0
    else KeySum(keys[..|keys| - 1], entries, p)
         + (if p(keys[|keys| - 1]) then WeightOf(entries, keys[|keys| - 1]) else 0)
  }

  lemma {:induction false} KeySumSnoc<K>(keys: seq<K>, entries: seq<(K, nat)>, e: (K, nat), p: K -> bool)
    requires Distinct(keys)
    ensures KeySum(keys, entries + [e], p)
            == KeySum(keys, entries, p) + (if e.0 in keys && p(e.0) then e.1 else 0)
  {
    var ext := entries + [e];
    assert ext[..|ext| - 1] == entries;
    if |keys| > 0 {
      var init := keys[..|keys| - 1];
      var last := keys[|keys| - 1];
      assert Distinct(init);
      KeySumSnoc(init, entries, e, p);
      assert e.0 in keys <==> e.0 in init || e.0 == last;
      forall m | 0 <= m < |init| ensures init[m] != last {
        assert init[m] == keys[m];
      }
    }
  }

  /** Grouping preserves totals: when `keys` lists every key of `entries`
      exactly once, adding up the per-key totals (restricted to `p`) gives the
      same sum as adding up the entries themselves. */
  lemma {:induction false} KeySumCoversEntries<K>(keys: seq<K>, entries: seq<(K, nat)>, p: K -> bool)
    requires Distinct(keys)
    requires forall i :: 0 <= i < |entries| ==> entries[i].0 in keys
    ensures KeySum(keys, entries, p) == SumWhere(entries, p)
  {
    if |entries| == 0 {
      KeySumOfNothing(keys, entries, p);
    } else {
      var init := entries[..|entries| - 1];
      var e := entries[|entries| - 1];
      assert entries == init + [e];
      KeySumCoversEntries(keys, init, p);
      KeySumSnoc(keys, init, e, p);
    }
  }

  lemma {:induction false} KeySumOfNothing<K>(keys: seq<K>, entries: seq<(K, nat)>, p: K -> bool)
    requires |entries| == 0
    ensures KeySum(keys, entries, p) == 0
  {
    if |keys| > 0 {
      KeySumOfNothing(keys[..|keys| - 1], entries, p);
    }
  }

  /** A non-empty sequence is its prefix followed by its last element. */
  lemma InitLast<T>(s: seq<T>)
    requires |s| > 0
    ensures s == s[..|s| - 1] + [s[|s| - 1]]
  {
  }

  lemma IndexOfPrefix<T>(s: seq<T>, n: nat, x: T)
    requires n <= |s| && x in s[..n]
    ensures IndexOf(s, x) < n
  {
    var m :| 0 <= m < n && s[..n][m] == x;
    assert s[m] == x;
  }
}
