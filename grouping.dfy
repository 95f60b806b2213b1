/**
 * Grouping a sequence of (key, amount) pairs the way the dashboard does it
 * with a JavaScript `Map` or plain object used as an accumulator: keys are
 * remembered in the order they are first seen (the iteration order of `Map`
 * and of non-numeric object keys), and each key collects the sum of its
 * amounts.
 */
module Grouping {
  import opened Common
  import opened Sorting

  /** The distinct keys of `s`, in order of first appearance. */
  function Keys<K(==)>(s: seq<(K, int)>): seq<K>
  {
    if s == [] then []
    else
      var ks := Keys(s[..|s| - 1]);
      if s[|s| - 1].0 in ks then ks else ks + [s[|s| - 1].0]
  }

  /** The sum of the amounts paired with `k`. */
  function KeySum<K(==)>(s: seq<(K, int)>, k: K): int
  {
    if s == [] then 0
    else KeySum(s[..|s| - 1], k) + (if s[|s| - 1].0 == k then s[|s| - 1].1 else 0)
  }

  /** How many pairs carry key `k`. */
  function KeyCount<K(==)>(s: seq<(K, int)>, k: K): nat
  {
    if s == [] then 0
    else KeyCount(s[..|s| - 1], k) + (if s[|s| - 1].0 == k then 1 else 0)
  }

  /** The sum of all amounts. */
  function Total<K>(s: seq<(K, int)>): int
  {
    if s == [] then 0 else Total(s[..|s| - 1]) + s[|s| - 1].1
  }

  /** One (key, sum) pair per key of `ks`, in the order of `ks`. */
  function Tally<K(==)>(ks: seq<K>, s: seq<(K, int)>): seq<(K, int)>
  {
    seq(|ks|, i requires 0 <= i < |ks| => (ks[i], KeySum(s, ks[i])))
  }

  /** The grouped view: one pair per distinct key, first-appearance order. */
  function Grouped<K(==)>(s: seq<(K, int)>): seq<(K, int)>
  {
    Tally(Keys(s), s)
  }

  lemma {:induction false} KeysFacts<K>(s: seq<(K, int)>)
    ensures Distinct(Keys(s))
    ensures forall i :: 0 <= i < |s| ==> s[i].0 in Keys(s)
    ensures forall k :: k in Keys(s) ==> KeyCount(s, k) > 0
  {
    if s != [] {
      var s' := s[..|s| - 1];
      KeysFacts(s');
      forall i | 0 <= i < |s| ensures s[i].0 in Keys(s) {
        if i < |s| - 1 {
          assert s[i] == s'[i];
        }
      }
    }
  }

  /** There are no more distinct keys than pairs. */
  lemma {:induction false} KeysLength<K>(s: seq<(K, int)>)
    ensures |Keys(s)| <= |s|
  {
    if s != [] {
      KeysLength(s[..|s| - 1]);
    }
  }

  /** The keys play no role beyond the ones that occur: an absent key sums to 0. */
  lemma {:induction false} KeySumAbsent<K>(s: seq<(K, int)>, k: K)
    requires k !in Keys(s)
    ensures KeySum(s, k) == 0 && KeyCount(s, k) == 0
  {
    if s != [] {
      KeySumAbsent(s[..|s| - 1], k);
    }
  }

  lemma {:induction false} KeySumAppend<K>(a: seq<(K, int)>, b: seq<(K, int)>, k: K)
    ensures KeySum(a + b, k) == KeySum(a, k) + KeySum(b, k)
    ensures KeyCount(a + b, k) == KeyCount(a, k) + KeyCount(b, k)
  {
    if b == [] {
      assert a + b == a;
    } else {
      assert (a + b)[..|a + b| - 1] == a + b[..|b| - 1];
      KeySumAppend(a, b[..|b| - 1], k);
    }
  }

  /** A key's sum does not depend on the order of the pairs. */
  lemma {:induction false} KeySumPermutation<K>(s: seq<(K, int)>, t: seq<(K, int)>, k: K)
    requires multiset(s) == multiset(t)
    ensures KeySum(s, k) == KeySum(t, k)
  {
    if s == [] {
      assert t == [];
    } else {
      var x := s[|s| - 1];
      var j := PermutationSplit(s, t);
      KeySumPermutation(s[..|s| - 1], t[..j] + t[j + 1..], k);
      KeySumAppend(t[..j], [x], k);
      KeySumAppend(t[..j] + [x], t[j + 1..], k);
      KeySumAppend(t[..j], t[j + 1..], k);
      assert KeySum([x], k) == (if x.0 == k then x.1 else 0) by {
        assert [x][..0] == [];
      }
    }
  }

  /** When every amount is at least 1, a key's sum is at least its number of pairs. */
  lemma {:induction false} KeySumAtLeastCount<K>(s: seq<(K, int)>, k: K)
    requires forall i :: 0 <= i < |s| ==> s[i].1 >= 1
    ensures KeySum(s, k) >= KeyCount(s, k)
  {
    if s != [] {
      KeySumAtLeastCount(s[..|s| - 1], k);
    }
  }

  lemma {:induction false} TallySnoc<K>(ks: seq<K>, s: seq<(K, int)>, x: (K, int))
    requires Distinct(ks)
    ensures Total(Tally(ks, s + [x])) == Total(Tally(ks, s)) + (if x.0 in ks then x.1 else 0)
  {
    if ks != [] {
      var ks' := ks[..|ks| - 1];
      assert Tally(ks, s + [x])[..|ks'|] == Tally(ks', s + [x]);
      assert Tally(ks, s)[..|ks'|] == Tally(ks', s);
      TallySnoc(ks', s, x);
      assert (s + [x])[..|s|] == s;
      assert ks == ks' + [ks[|ks| - 1]];
    }
  }

  /** Grouping preserves the grand total. */
  lemma {:induction false} GroupedTotal<K>(s: seq<(K, int)>)
    ensures Total(Grouped(s)) == Total(s)
  {
    if s != [] {
      var s', x := s[..|s| - 1], s[|s| - 1];
      assert s == s' + [x];
      GroupedTotal(s');
      KeysFacts(s');
      TallySnoc(Keys(s'), s', x);
      if x.0 !in Keys(s') {
        var ks := Keys(s') + [x.0];
        assert Tally(ks, s)[..|Keys(s')|] == Tally(Keys(s'), s);
        KeySumAbsent(s', x.0);
      }
    }
  }

  /**
   * Everything a caller needs about the grouped view: one pair per distinct
   * key (and no others), in first-appearance order, each with its key's sum,
   * and the grand total preserved.
   */
  lemma {:induction false} GroupedFacts<K>(s: seq<(K, int)>)
    ensures var g := Grouped(s);
      && |g| == |Keys(s)|
      && Distinct(g)
      && (forall i :: 0 <= i < |g| ==> g[i].0 == Keys(s)[i] && g[i].1 == KeySum(s, g[i].0))
      && (forall i, j :: 0 <= i < |g| && 0 <= j < |g| && g[i].0 == g[j].0 ==> i == j)
      && (forall i :: 0 <= i < |s| ==> exists j :: 0 <= j < |g| && g[j].0 == s[i].0)
      && (forall i :: 0 <= i < |g| ==> KeyCount(s, g[i].0) > 0)
      && Total(g) == Total(s)
  {
    KeysFacts(s);
    GroupedTotal(s);
    var g := Grouped(s);
    forall i | 0 <= i < |s| ensures exists j :: 0 <= j < |g| && g[j].0 == s[i].0 {
      var j :| 0 <= j < |Keys(s)| && Keys(s)[j] == s[i].0;
      assert g[j].0 == s[i].0;
    }
  }

  lemma {:induction false} TotalAppend<K>(a: seq<(K, int)>, b: seq<(K, int)>)
    ensures Total(a + b) == Total(a) + Total(b)
  {
    if b == [] {
      assert a + b == a;
    } else {
      assert (a + b)[..|a + b| - 1] == a + b[..|b| - 1];
      TotalAppend(a, b[..|b| - 1]);
    }
  }

  /** The grand total does not depend on the order of the pairs. */
  lemma {:induction false} TotalPermutation<K>(s: seq<(K, int)>, t: seq<(K, int)>)
    requires multiset(s) == multiset(t)
    ensures Total(s) == Total(t)
  {
    if s == [] {
      assert t == [];
    } else {
      var x := s[|s| - 1];
      var j := PermutationSplit(s, t);
      TotalPermutation(s[..|s| - 1], t[..j] + t[j + 1..]);
      TotalAppend(t[..j], [x]);
      TotalAppend(t[..j] + [x], t[j + 1..]);
      TotalAppend(t[..j], t[j + 1..]);
      assert Total([x]) == x.1 by {
        assert [x][..0] == [];
      }
    }
  }

  function Amount<K>(e: (K, int)): int
  {
    e.1
  }

  predicate AtLeast(a: int, b: int)
  {
    a >= b
  }

  /**
   * The state of an accumulating loop after the pairs `s`: `order` lists the
   * keys in the order they were first set, and `totals` maps each of them
   * to its sum.
   */
  ghost predicate Accumulates<K>(totals: map<K, int>, order: seq<K>, s: seq<(K, int)>)
  {
    && order == Keys(s)
    && (forall k :: k in order ==> k in totals)
    && (forall k :: k in totals ==> k in order && totals[k] == KeySum(s, k))
  }

  /** One step `m.set(k, (m.get(k) || 0) + v)` extends the accumulated pairs by (k, v). */
  lemma {:induction false} AccumulateStep<K>(totals: map<K, int>, order: seq<K>, s: seq<(K, int)>, x: (K, int))
    requires Accumulates(totals, order, s)
    ensures Accumulates(totals[x.0 := (if x.0 in totals then totals[x.0] else 0) + x.1],
                        if x.0 in totals then order else order + [x.0], s + [x])
  {
    assert (s + [x])[..|s|] == s;
    if x.0 !in totals {
      KeySumAbsent(s, x.0);
    }
  }

  /** Reading the accumulator out in insertion order gives the grouped view. */
  lemma {:induction false} AccumulatedValues<K>(totals: map<K, int>, order: seq<K>, s: seq<(K, int)>)
    requires Accumulates(totals, order, s)
    ensures seq(|order|, j requires 0 <= j < |order| => (order[j], totals[order[j]])) == Grouped(s)
  {
  }

  /**
   * Sorting the grouped view by any total order keeps one entry per
   * distinct key and no other, each holding that key's sum; it is sorted,
   * stable, and keeps the grand total.
   */
  lemma {:induction false} SortedGroupFacts<K, J(!new)>(s: seq<(K, int)>, key: ((K, int)) -> J, le: (J, J) -> bool)
    requires IsTotal(le)
    ensures var r := SortBy(Grouped(s), key, le);
      && |r| == |Keys(s)|
      && SortedBy(r, key, le)
      && (forall i :: 0 <= i < |r| ==> KeyCount(s, r[i].0) > 0 && r[i].1 == KeySum(s, r[i].0))
      && (forall i, j :: 0 <= i < |r| && 0 <= j < |r| && r[i].0 == r[j].0 ==> i == j)
      && (forall i :: 0 <= i < |s| ==> exists j :: 0 <= j < |r| && r[j].0 == s[i].0)
      && (forall v :: WithKey(r, key, v) == WithKey(Grouped(s), key, v))
      && Total(r) == Total(s)
  {
    var g := Grouped(s);
    var r := SortBy(g, key, le);
    SortByCorrect(g, key, le);
    GroupedFacts(s);
    SortByDistinct(g, key, le);
    TotalPermutation(r, g);
    forall i | 0 <= i < |r| ensures r[i] in g {
      assert r[i] in multiset(r);
    }
    forall i, j | 0 <= i < |r| && 0 <= j < |r| && r[i].0 == r[j].0 ensures i == j {
      assert r[i] in g && r[j] in g;
    }
    forall i | 0 <= i < |s| ensures exists j :: 0 <= j < |r| && r[j].0 == s[i].0 {
      var k :| 0 <= k < |g| && g[k].0 == s[i].0;
      assert g[k] in multiset(r);
      var j :| 0 <= j < |r| && r[j] == g[k];
    }
  }

  /**
   * Group, then sort by sum, largest first; equal sums keep first-appearance
   * order. This is `[...map.values()].sort((a, b) => b.visits - a.visits)`
   * after the accumulating loop.
   */
  function Ranked<K(==)>(s: seq<(K, int)>): seq<(K, int)>
  {
    SortBy(Grouped(s), Amount, AtLeast)
  }

  /**
   * The ranking has one entry per distinct key and no other, each holding
   * that key's sum, sorted non-increasing by sum, with equal sums in order
   * of first appearance, and the grand total preserved.
   */
  lemma {:induction false} RankedFacts<K>(s: seq<(K, int)>)
    ensures var r := Ranked(s);
      && |r| == |Keys(s)|
      && (forall i :: 0 < i < |r| ==> r[i - 1].1 >= r[i].1)
      && (forall i :: 0 <= i < |r| ==> KeyCount(s, r[i].0) > 0 && r[i].1 == KeySum(s, r[i].0))
      && (forall i, j :: 0 <= i < |r| && 0 <= j < |r| && r[i].0 == r[j].0 ==> i == j)
      && (forall i :: 0 <= i < |s| ==> exists j :: 0 <= j < |r| && r[j].0 == s[i].0)
      && (forall v :: WithKey(r, Amount, v) == WithKey(Grouped(s), Amount, v))
      && Total(r) == Total(s)
  {
    assert IsTotal(AtLeast);
    SortedGroupFacts(s, Amount, AtLeast);
  }
}
