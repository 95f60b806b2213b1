/**
 * A stable sort by key, the model of JavaScript's `Array.prototype.sort`
 * with a comparator (stable since ECMAScript 2019). `le(a, b)` says that an
 * element with key `a` may come before one with key `b`; it only has to be
 * total. Elements whose keys are equal keep their input order.
 */
module Sorting {
  import opened Common

  ghost predicate IsTotal<K(!new)>(le: (K, K) -> bool)
  {
    forall a, b :: le(a, b) || le(b, a)
  }

  /** Each element may precede the next one. */
  predicate SortedBy<T, K>(s: seq<T>, key: T -> K, le: (K, K) -> bool)
  {
    forall i :: 0 < i < |s| ==> le(key(s[i - 1]), key(s[i]))
  }

  /** The elements of `s` whose key is `v`, in their order in `s`. */
  function WithKey<T, K(==)>(s: seq<T>, key: T -> K, v: K): seq<T>
  {
    if s == [] then []
    else WithKey(s[..|s| - 1], key, v) + (if key(s[|s| - 1]) == v then [s[|s| - 1]] else [])
  }

  /** Places `x` after every element of `t` that may precede it. */
  function Insert<T, K>(t: seq<T>, x: T, key: T -> K, le: (K, K) -> bool): seq<T>
  {
    if t == [] then [x]
    else if le(key(t[|t| - 1]), key(x)) then t + [x]
    else Insert(t[..|t| - 1], x, key, le) + [t[|t| - 1]]
  }

  /** Insertion sort; the last element is inserted into the sorted rest. */
  function SortBy<T, K>(s: seq<T>, key: T -> K, le: (K, K) -> bool): seq<T>
  {
    if s == [] then [] else Insert(SortBy(s[..|s| - 1], key, le), s[|s| - 1], key, le)
  }

  lemma {:induction false} WithKeyAppend<T, K>(a: seq<T>, b: seq<T>, key: T -> K, v: K)
    ensures WithKey(a + b, key, v) == WithKey(a, key, v) + WithKey(b, key, v)
  {
    if b == [] {
      assert a + b == a;
    } else {
      var b' := b[..|b| - 1];
      assert (a + b)[..|a + b| - 1] == a + b';
      WithKeyAppend(a, b', key, v);
    }
  }

  lemma {:induction false} InsertPermutes<T, K>(t: seq<T>, x: T, key: T -> K, le: (K, K) -> bool)
    ensures multiset(Insert(t, x, key, le)) == multiset(t) + multiset{x}
    ensures |Insert(t, x, key, le)| == |t| + 1
  {
    if t != [] && !le(key(t[|t| - 1]), key(x)) {
      assert t == t[..|t| - 1] + [t[|t| - 1]];
      InsertPermutes(t[..|t| - 1], x, key, le);
    }
  }

  lemma {:induction false} InsertSorted<T, K(!new)>(t: seq<T>, x: T, key: T -> K, le: (K, K) -> bool)
    requires IsTotal(le) && SortedBy(t, key, le)
    ensures var r := Insert(t, x, key, le); r != [] && (r[|r| - 1] == x || (t != [] && r[|r| - 1] == t[|t| - 1]))
    ensures SortedBy(Insert(t, x, key, le), key, le)
  {
    if t != [] && !le(key(t[|t| - 1]), key(x)) {
      var t', last := t[..|t| - 1], t[|t| - 1];
      assert SortedBy(t', key, le);
      InsertSorted(t', x, key, le);
      var r' := Insert(t', x, key, le);
      assert le(key(x), key(last));
      assert le(key(r'[|r'| - 1]), key(last));
    }
  }

  lemma {:induction false} InsertStable<T, K(!new)>(t: seq<T>, x: T, key: T -> K, le: (K, K) -> bool, v: K)
    requires IsTotal(le)
    ensures WithKey(Insert(t, x, key, le), key, v) == WithKey(t, key, v) + (if key(x) == v then [x] else [])
  {
    if t == [] {
    } else if le(key(t[|t| - 1]), key(x)) {
      assert (t + [x])[..|t|] == t;
    } else {
      var t', last := t[..|t| - 1], t[|t| - 1];
      InsertStable(t', x, key, le, v);
      var r' := Insert(t', x, key, le);
      assert (r' + [last])[..|r'|] == r';
      assert le(key(last), key(last));
    }
  }

  /** The sort is ordered, a permutation, and stable. */
  lemma {:induction false} SortByCorrect<T, K(!new)>(s: seq<T>, key: T -> K, le: (K, K) -> bool)
    requires IsTotal(le)
    ensures |SortBy(s, key, le)| == |s|
    ensures SortedBy(SortBy(s, key, le), key, le)
    ensures multiset(SortBy(s, key, le)) == multiset(s)
    ensures forall v :: WithKey(SortBy(s, key, le), key, v) == WithKey(s, key, v)
  {
    if s != [] {
      var s', x := s[..|s| - 1], s[|s| - 1];
      assert s == s' + [x];
      SortByCorrect(s', key, le);
      InsertPermutes(SortBy(s', key, le), x, key, le);
      InsertSorted(SortBy(s', key, le), x, key, le);
      forall v ensures WithKey(SortBy(s, key, le), key, v) == WithKey(s, key, v) {
        InsertStable(SortBy(s', key, le), x, key, le, v);
        assert s[..|s| - 1] == s';
      }
    }
  }

  lemma {:induction false} InsertDistinct<T, K>(t: seq<T>, x: T, key: T -> K, le: (K, K) -> bool)
    requires Distinct(t) && x !in t
    ensures Distinct(Insert(t, x, key, le))
  {
    if t != [] && !le(key(t[|t| - 1]), key(x)) {
      var t', last := t[..|t| - 1], t[|t| - 1];
      assert t == t' + [last];
      InsertDistinct(t', x, key, le);
      InsertPermutes(t', x, key, le);
      var r' := Insert(t', x, key, le);
      assert last !in multiset(r') by {
        assert multiset(r') == multiset(t') + multiset{x};
        assert last !in t';
      }
    }
  }

  /** Sorting a sequence without repetitions yields one without repetitions. */
  lemma {:induction false} SortByDistinct<T, K(!new)>(s: seq<T>, key: T -> K, le: (K, K) -> bool)
    requires IsTotal(le) && Distinct(s)
    ensures Distinct(SortBy(s, key, le))
  {
    if s != [] {
      var s', x := s[..|s| - 1], s[|s| - 1];
      assert s == s' + [x];
      SortByDistinct(s', key, le);
      SortByCorrect(s', key, le);
      assert x !in multiset(SortBy(s', key, le));
      InsertDistinct(SortBy(s', key, le), x, key, le);
    }
  }

  /**
   * Code-by-code lexicographic order on strings, the order in which
   * `localeCompare` puts strings of the fixed form "YYYY-MM-DD".
   */
  predicate TextLe(a: string, b: string)
  {
    a == [] || (b != [] && (a[0] < b[0] || (a[0] == b[0] && TextLe(a[1..], b[1..]))))
  }

  lemma {:induction false} TextLeTotalAt(a: string, b: string)
    ensures TextLe(a, b) || TextLe(b, a)
    ensures TextLe(a, b) && TextLe(b, a) ==> a == b
  {
    if a != [] && b != [] && a[0] == b[0] {
      TextLeTotalAt(a[1..], b[1..]);
      assert a == [a[0]] + a[1..] && b == [b[0]] + b[1..];
    }
  }

  /** Any two strings are comparable, and only equal strings are mutually below. */
  /** The code-unit order is transitive. */
  lemma {:induction false} TextLeTransitive(a: string, b: string, c: string)
    requires TextLe(a, b) && TextLe(b, c)
    ensures TextLe(a, c)
  {
    if a != [] && a[0] == b[0] && b[0] == c[0] {
      TextLeTransitive(a[1..], b[1..], c[1..]);
    }
  }

  lemma {:induction false} TextLeTotal()
    ensures IsTotal(TextLe)
    ensures forall a, b :: TextLe(a, b) && TextLe(b, a) ==> a == b
  {
    forall a, b ensures TextLe(a, b) || TextLe(b, a) {
      TextLeTotalAt(a, b);
    }
    forall a, b | TextLe(a, b) && TextLe(b, a) ensures a == b {
      TextLeTotalAt(a, b);
    }
  }
}
