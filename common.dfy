/** Small shared vocabulary: optional values and string prefixes. */
module Common {

  /** A value that may be absent (JavaScript `null` / `undefined`). */
  datatype Option<T> = None | Some(value: T)

  /** `s.startsWith(prefix)` */
  predicate StartsWith(s: string, prefix: string)
  {
    |prefix| <= |s| && s[..|prefix|] == prefix
  }

  /** Every element of `s` occurs once. */
  predicate Distinct<T(==)>(s: seq<T>)
  {
    forall i, j :: 0 <= i < j < |s| ==> s[i] != s[j]
  }

  /**
   * Two sequences with the same elements: the last element of `s` sits at
   * some index `j` of `t`, and what is left of both still has the same elements.
   */
  lemma {:induction false} PermutationSplit<T>(s: seq<T>, t: seq<T>) returns (j: nat)
    requires multiset(s) == multiset(t) && s != []
    ensures j < |t| && t[j] == s[|s| - 1]
    ensures t == t[..j] + [t[j]] + t[j + 1..]
    ensures multiset(s[..|s| - 1]) == multiset(t[..j] + t[j + 1..])
  {
    var x := s[|s| - 1];
    assert x in multiset(t);
    j := IndexOf(t, x);
    RemoveAt(t, j);
    RemoveLast(s);
  }

  /** Dropping the last element takes one copy of it out of the multiset. */
  lemma {:induction false} RemoveLast<T>(s: seq<T>)
    requires s != []
    ensures multiset(s[..|s| - 1]) == multiset(s) - multiset{s[|s| - 1]}
  {
    assert s == s[..|s| - 1] + [s[|s| - 1]];
  }

  /** An index at which `x` occurs in `t`. */
  ghost function IndexOf<T>(t: seq<T>, x: T): (j: nat)
    requires x in t
    ensures j < |t| && t[j] == x
  {
    if t[0] == x then 0 else 1 + IndexOf(t[1..], x)
  }

  /** Taking out the element at `j` takes one copy of it out of the multiset. */
  lemma {:induction false} RemoveAt<T>(t: seq<T>, j: nat)
    requires j < |t|
    ensures t == t[..j] + [t[j]] + t[j + 1..]
    ensures multiset(t[..j] + t[j + 1..]) == multiset(t) - multiset{t[j]}
  {
    assert t == t[..j] + [t[j]] + t[j + 1..];
    assert multiset(t) == multiset(t[..j]) + multiset{t[j]} + multiset(t[j + 1..]);
  }

  /** The prefix one longer is the prefix plus the next element. */
  lemma {:induction false} TakeSnoc<T>(s: seq<T>, k: nat)
    requires k < |s|
    ensures s[..k + 1] == s[..k] + [s[k]]
  {
  }

  /** Appending one element after a concatenation. */
  lemma {:induction false} AppendSnoc<T>(a: seq<T>, b: seq<T>, x: T)
    ensures a + b + [x] == a + (b + [x])
  {
  }

  lemma {:induction false} TakeAll<T>(s: seq<T>)
    ensures s[..|s|] == s
  {
  }

  /** The blocks of `parts` one after the other. */
  function Flatten<T>(parts: seq<seq<T>>): seq<T>
  {
    if parts == [] then [] else Flatten(parts[..|parts| - 1]) + parts[|parts| - 1]
  }

  /** Where block `k` of `parts` starts in `Flatten(parts)`: the lengths of the blocks before it. */
  function Position<T>(parts: seq<seq<T>>, k: nat): nat
    requires k <= |parts|
  {
    if k == 0 then 0 else Position(parts, k - 1) + |parts[k - 1]|
  }

  lemma {:induction false} PositionPrefix<T>(parts: seq<seq<T>>, m: nat, k: nat)
    requires k <= m <= |parts|
    ensures Position(parts[..m], k) == Position(parts, k)
  {
    if k > 0 {
      PositionPrefix(parts, m, k - 1);
    }
  }

  lemma {:induction false} PositionAppend<T>(xs: seq<seq<T>>, ys: seq<seq<T>>, k: nat)
    requires k <= |xs| + |ys|
    ensures Position(xs + ys, k) == if k <= |xs| then Position(xs, k) else Position(xs, |xs|) + Position(ys, k - |xs|)
  {
    if k > 0 {
      PositionAppend(xs, ys, k - 1);
    }
  }

  lemma {:induction false} FlattenLength<T>(parts: seq<seq<T>>)
    ensures |Flatten(parts)| == Position(parts, |parts|)
  {
    if parts != [] {
      var m := |parts| - 1;
      FlattenLength(parts[..m]);
      PositionPrefix(parts, m, m);
    }
  }

  /** One more block. */
  lemma {:induction false} FlattenTake<T>(parts: seq<seq<T>>, k: nat)
    requires k < |parts|
    ensures Flatten(parts[..k + 1]) == Flatten(parts[..k]) + parts[k]
  {
    assert parts[..k + 1][..k] == parts[..k];
  }

  lemma {:induction false} FlattenAppend<T>(xs: seq<seq<T>>, ys: seq<seq<T>>)
    ensures Flatten(xs + ys) == Flatten(xs) + Flatten(ys)
  {
    if ys == [] {
      assert xs + ys == xs;
    } else {
      var m := |ys| - 1;
      assert (xs + ys)[..|xs + ys| - 1] == xs + ys[..m];
      FlattenAppend(xs, ys[..m]);
    }
  }

  /** Block `k` sits at its position in the flattened sequence. */
  lemma {:induction false} BlockAt<T>(parts: seq<seq<T>>, k: nat)
    requires k < |parts|
    ensures Position(parts, k) + |parts[k]| <= |Flatten(parts)|
    ensures Flatten(parts)[Position(parts, k)..Position(parts, k) + |parts[k]|] == parts[k]
  {
    var m := |parts| - 1;
    var a := Flatten(parts[..m]);
    FlattenLength(parts[..m]);
    PositionPrefix(parts, m, k);
    if k < m {
      BlockAt(parts[..m], k);
      PositionPrefix(parts, m, k + 1);
      PositionPrefix(parts, m, m);
      var i, j := Position(parts, k), Position(parts, k) + |parts[k]|;
      assert (a + parts[m])[i..j] == a[i..j];
    }
  }

  /** Block `k` ends within the flattened sequence. */
  lemma {:induction false} BlockEnd<T>(parts: seq<seq<T>>, k: nat)
    requires k < |parts|
    ensures Position(parts, k) + |parts[k]| <= |Flatten(parts)|
  {
    BlockAt(parts, k);
  }
}
