/** Stable sort in descending order of a real-valued key, the behaviour of
    `xs.sort((a, b) => key(b) - key(a))` (Array.prototype.sort is stable, so every
    stable sort yields the same list). */
module Sorting {

  predicate SortedDesc<T>(s: seq<T>, key: T -> real) {
    forall i, j :: 0 <= i < j < |s| ==> key(s[i]) >= key(s[j])
  }

  /** Inserts `x` into a list sorted in descending order, after every element whose key
      is at least `x`'s (so that equal keys keep their arrival order). */
  function Insert<T>(s: seq<T>, x: T, key: T -> real): seq<T>
    decreases |s|
  {
    if s == [] || key(s[|s| - 1]) >= key(x) then s + [x]
    else Insert(s[..|s| - 1], x, key) + [s[|s| - 1]]
  }

  /** Insertion sort, left to right. */
  function SortDesc<T>(s: seq<T>, key: T -> real): seq<T>
    decreases |s|
  {
    if s == [] then [] else Insert(SortDesc(s[..|s| - 1], key), s[|s| - 1], key)
  }

  /** The elements of `s` whose key is `v`, in order. */
  function WithKey<T>(s: seq<T>, key: T -> real, v: real): seq<T>
    decreases |s|
  {
    if s == [] then []
    else WithKey(s[..|s| - 1], key, v) + (if key(s[|s| - 1]) == v then [s[|s| - 1]] else [])
  }

  lemma InsertFacts<T>(s: seq<T>, x: T, key: T -> real)
    ensures multiset(Insert(s, x, key)) == multiset(s) + multiset{x}
    ensures SortedDesc(s, key) ==> SortedDesc(Insert(s, x, key), key)
    ensures forall v :: WithKey(Insert(s, x, key), key, v) == WithKey(s + [x], key, v)
  {
    InsertPermutes(s, x, key);
    if SortedDesc(s, key) {
      InsertSorted(s, x, key);
    }
    forall v ensures WithKey(Insert(s, x, key), key, v) == WithKey(s + [x], key, v) {
      InsertStable(s, x, key, v);
    }
  }

  lemma {:induction false} InsertPermutes<T>(s: seq<T>, x: T, key: T -> real)
    ensures multiset(Insert(s, x, key)) == multiset(s) + multiset{x}
    decreases |s|
  {
    if s != [] && key(s[|s| - 1]) < key(x) {
      var init, last := s[..|s| - 1], s[|s| - 1];
      assert s == init + [last];
      InsertPermutes(init, x, key);
    }
  }

  lemma {:induction false} InsertSorted<T>(s: seq<T>, x: T, key: T -> real)
    requires SortedDesc(s, key)
    ensures SortedDesc(Insert(s, x, key), key)
    decreases |s|
  {
    if s != [] && key(s[|s| - 1]) < key(x) {
      var init, last := s[..|s| - 1], s[|s| - 1];
      assert SortedDesc(init, key);
      InsertSorted(init, x, key);
      InsertPermutes(init, x, key);
      var r := Insert(s, x, key);
      var ri := Insert(init, x, key);
      assert r == ri + [last];
      forall i | 0 <= i < |ri| ensures key(ri[i]) >= key(last) {
        assert ri[i] in multiset(ri);
        assert ri[i] == x || ri[i] in init;
      }
    }
  }

  lemma {:induction false} InsertStable<T>(s: seq<T>, x: T, key: T -> real, v: real)
    ensures WithKey(Insert(s, x, key), key, v) == WithKey(s + [x], key, v)
    decreases |s|
  {
    if s == [] || key(s[|s| - 1]) >= key(x) {
    } else {
      var init, last := s[..|s| - 1], s[|s| - 1];
      InsertStable(init, x, key, v);
      var ri := Insert(init, x, key);
      assert Insert(s, x, key) == ri + [last];
      assert (ri + [last])[..|ri|] == ri;
      assert (init + [x])[..|init|] == init;
      assert (s + [x])[..|s|] == s;
    }
  }

  /** The sorted list is a permutation of the input, in descending key order, and
      stable: the elements sharing any one key appear in their input order. */
  lemma {:induction false} SortDescFacts<T>(s: seq<T>, key: T -> real)
    ensures multiset(SortDesc(s, key)) == multiset(s)
    ensures |SortDesc(s, key)| == |s|
    ensures SortedDesc(SortDesc(s, key), key)
    ensures forall v :: WithKey(SortDesc(s, key), key, v) == WithKey(s, key, v)
    decreases |s|
  {
    if s != [] {
      var init, last := s[..|s| - 1], s[|s| - 1];
      assert s == init + [last];
      SortDescFacts(init, key);
      InsertFacts(SortDesc(init, key), last, key);
      forall v ensures WithKey(SortDesc(s, key), key, v) == WithKey(s, key, v) {
        var t := SortDesc(init, key);
        assert (t + [last])[..|t|] == t;
      }
    }
    assert |SortDesc(s, key)| == |multiset(SortDesc(s, key))|;
  }

  /** In-place insertion sort of an array. */
  method SortDescInPlace<T>(a: array<T>, key: T -> real)
    modifies a
    ensures a[..] == SortDesc(old(a[..]), key)
  {
    var i := 0;
    while i < a.Length
      invariant 0 <= i <= a.Length
      invariant a[..i] == SortDesc(old(a[..])[..i], key)
      invariant a[i..] == old(a[..])[i..]
    {
      ghost var before := a[..];
      InsertAt(a, i, key);
      assert old(a[..])[..i + 1][..i] == old(a[..])[..i];
      assert before[i] == old(a[..])[i];
      assert a[i + 1..] == before[i + 1..];
      assert a[..i + 1] == SortDesc(old(a[..])[..i + 1], key);
      i := i + 1;
    }
    assert old(a[..])[..a.Length] == old(a[..]);
  }

  /** One step of insertion sort: moves `a[i]` into the sorted prefix `a[..i]`. */
  method InsertAt<T>(a: array<T>, i: nat, key: T -> real)
    requires i < a.Length
    modifies a
    ensures a[..i + 1] == Insert(old(a[..i]), old(a[i]), key)
    ensures forall k :: i < k < a.Length ==> a[k] == old(a[k])
  {
    ghost var p := a[..i];
    var x := a[i];
    var j := i;
    while j > 0 && key(a[j - 1]) < key(x)
      invariant 0 <= j <= i
      invariant forall k :: 0 <= k < j ==> a[k] == p[k]
      invariant forall k :: j < k <= i ==> a[k] == p[k - 1]
      invariant forall k :: i < k < a.Length ==> a[k] == old(a[k])
      invariant forall k :: j <= k < i ==> key(p[k]) < key(x)
    {
      a[j] := a[j - 1];
      j := j - 1;
    }
    a[j] := x;
    InsertAfter(p, j, x, key);
    assert a[..i + 1] == p[..j] + [x] + p[j..] by {
      forall k | 0 <= k <= i ensures a[k] == (p[..j] + [x] + p[j..])[k] {
      }
    }
  }

  /** `x` is inserted right after the last element whose key is at least its own. */
  lemma {:induction false} InsertAfter<T>(p: seq<T>, j: nat, x: T, key: T -> real)
    requires j <= |p| && (j == 0 || key(p[j - 1]) >= key(x))
    requires forall k :: j <= k < |p| ==> key(p[k]) < key(x)
    ensures Insert(p, x, key) == p[..j] + [x] + p[j..]
    decreases |p|
  {
    if |p| == j {
      assert p[..j] == p && p[j..] == [];
    } else {
      var init, last := p[..|p| - 1], p[|p| - 1];
      InsertAfter(init, j, x, key);
      assert init[..j] == p[..j];
      assert init[j..] + [last] == p[j..];
    }
  }
}
