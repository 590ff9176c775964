/** List helpers shared by the services: `Array.prototype.find`, and
    order-preserving de-duplication by a key, the pattern the services write as
    `const seen = new Set(initial); xs.filter(x => { if (seen.has(k(x))) return false; seen.add(k(x)); return true; })`. */
module Seqs {
  import opened Types

  /** The first element satisfying `p`. */
  function Find<T>(s: seq<T>, p: T -> bool): (r: Option<T>)
    ensures r.None? <==> forall i :: 0 <= i < |s| ==> !p(s[i])
    ensures r.Some? ==> exists i :: 0 <= i < |s| && s[i] == r.value && p(s[i])
                                   && forall j :: 0 <= j < i ==> !p(s[j])
    decreases |s|
  {
    if s == [] then None
    else if p(s[0]) then Some(s[0])
    else
      var r := Find(s[1..], p);
      assert forall i :: 1 <= i < |s| ==> s[i] == s[1..][i - 1];
      r
  }

  /** Keeps, left to right, each element whose key is neither in `seen` nor the key
      of an element kept before it. */
  function DedupBy<T, K>(s: seq<T>, key: T -> K, seen: set<K>): seq<T>
    decreases |s|
  {
    if s == [] then []
    else if key(s[0]) in seen then DedupBy(s[1..], key, seen)
    else [s[0]] + DedupBy(s[1..], key, seen + {key(s[0])})
  }

  function KeySet<T, K>(s: seq<T>, key: T -> K): set<K> {
    set i | 0 <= i < |s| :: key(s[i])
  }

  predicate UniqueKeys<T, K(==)>(s: seq<T>, key: T -> K) {
    forall i, j :: 0 <= i < j < |s| ==> key(s[i]) != key(s[j])
  }

  /** Every kept element comes from the input, no kept key was already seen, and
      no two kept elements share a key. */
  lemma {:induction false} DedupSound<T, K>(s: seq<T>, key: T -> K, seen: set<K>)
    ensures forall x :: x in DedupBy(s, key, seen) ==> x in s && key(x) !in seen
    ensures UniqueKeys(DedupBy(s, key, seen), key)
    decreases |s|
  {
    if s != [] {
      if key(s[0]) in seen {
        DedupSound(s[1..], key, seen);
      } else {
        var k := key(s[0]);
        DedupSound(s[1..], key, seen + {k});
        var rest := DedupBy(s[1..], key, seen + {k});
        var r := [s[0]] + rest;
        forall i, j | 0 <= i < j < |r| ensures key(r[i]) != key(r[j]) {
          if i == 0 {
            assert r[j] in rest;
          } else {
            assert r[i] == rest[i - 1] && r[j] == rest[j - 1];
          }
        }
      }
    }
  }

  lemma KeySetCons<T, K>(s: seq<T>, key: T -> K)
    requires s != []
    ensures KeySet(s, key) == {key(s[0])} + KeySet(s[1..], key)
  {
    forall y | y in KeySet(s, key) ensures y in {key(s[0])} + KeySet(s[1..], key) {
      var i :| 0 <= i < |s| && key(s[i]) == y;
      if i > 0 { assert key(s[1..][i - 1]) == y; }
    }
    forall y | y in KeySet(s[1..], key) ensures y in KeySet(s, key) {
      var i :| 0 <= i < |s[1..]| && key(s[1..][i]) == y;
      assert key(s[i + 1]) == y;
    }
  }

  /** Appending one element to the input appends it to the output exactly when its
      key is new: the first occurrence of each key is the one kept, in input order. */
  lemma {:induction false} DedupSnoc<T, K>(s: seq<T>, x: T, key: T -> K, seen: set<K>)
    ensures DedupBy(s + [x], key, seen)
         == DedupBy(s, key, seen) + (if key(x) in seen + KeySet(s, key) then [] else [x])
    decreases |s|
  {
    if s == [] {
      assert [x][1..] == [];
    } else {
      var k := key(s[0]);
      assert (s + [x])[0] == s[0];
      assert (s + [x])[1..] == s[1..] + [x];
      KeySetCons(s, key);
      if k in seen {
        assert seen + KeySet(s, key) == seen + KeySet(s[1..], key);
        DedupSnoc(s[1..], x, key, seen);
      } else {
        assert seen + KeySet(s, key) == (seen + {k}) + KeySet(s[1..], key);
        DedupSnoc(s[1..], x, key, seen + {k});
      }
    }
  }

  /** The keys kept are exactly the input's keys that were not already seen. */
  lemma {:induction false} DedupKeys<T, K>(s: seq<T>, key: T -> K, seen: set<K>)
    ensures KeySet(DedupBy(s, key, seen), key) == KeySet(s, key) - seen
    decreases |s|
  {
    if s != [] {
      var k := key(s[0]);
      KeySetCons(s, key);
      if k in seen {
        DedupKeys(s[1..], key, seen);
      } else {
        var rest := DedupBy(s[1..], key, seen + {k});
        DedupKeys(s[1..], key, seen + {k});
        KeySetCons([s[0]] + rest, key);
        assert ([s[0]] + rest)[1..] == rest;
      }
    }
  }

  /** A list whose keys are already unique and unseen passes through unchanged. */
  lemma {:induction false} DedupIdentity<T, K>(s: seq<T>, key: T -> K, seen: set<K>)
    requires UniqueKeys(s, key)
    requires forall i :: 0 <= i < |s| ==> key(s[i]) !in seen
    ensures DedupBy(s, key, seen) == s
    decreases |s|
  {
    if s != [] {
      var k := key(s[0]);
      forall i | 0 <= i < |s[1..]| ensures key(s[1..][i]) !in seen + {k} {
        assert s[1..][i] == s[i + 1];
      }
      DedupIdentity(s[1..], key, seen + {k});
    }
  }

  /** De-duplicating twice is the same as de-duplicating once. */
  lemma DedupIdempotent<T, K>(s: seq<T>, key: T -> K)
    ensures DedupBy(DedupBy(s, key, {}), key, {}) == DedupBy(s, key, {})
  {
    DedupSound(s, key, {});
    DedupIdentity(DedupBy(s, key, {}), key, {});
  }

  /** Each input key that was not already seen is represented in the output. */
  lemma DedupCovers<T, K>(s: seq<T>, key: T -> K, seen: set<K>, i: nat)
    requires i < |s| && key(s[i]) !in seen
    ensures exists j :: 0 <= j < |DedupBy(s, key, seen)| && key(DedupBy(s, key, seen)[j]) == key(s[i])
  {
    DedupKeys(s, key, seen);
    var d := DedupBy(s, key, seen);
    assert key(s[i]) in KeySet(d, key);
    var j :| 0 <= j < |d| && key(d[j]) == key(s[i]);
  }

  /** `s.filter(p)` */
  function Filter<T>(s: seq<T>, p: T -> bool): (r: seq<T>)
    ensures |r| <= |s|
    decreases |s|
  {
    if s == [] then [] else Filter(s[..|s| - 1], p) + (if p(s[|s| - 1]) then [s[|s| - 1]] else [])
  }

  /** What the filter keeps comes from the input and passes the test. */
  lemma {:induction false} FilterSound<T>(s: seq<T>, p: T -> bool)
    ensures forall x :: x in Filter(s, p) ==> x in s && p(x)
    decreases |s|
  {
    if s != [] {
      FilterSound(s[..|s| - 1], p);
    }
  }

  lemma PrefixSnoc<T>(s: seq<T>, i: nat)
    requires i < |s|
    ensures s[..i] + [s[i]] == s[..i + 1]
  {
  }

  lemma FilterSnoc<T>(s: seq<T>, x: T, p: T -> bool)
    ensures Filter(s + [x], p) == Filter(s, p) + (if p(x) then [x] else [])
  {
    assert (s + [x])[..|s|] == s;
  }

  lemma KeySetSnoc<T, K>(s: seq<T>, x: T, key: T -> K)
    ensures KeySet(s + [x], key) == KeySet(s, key) + {key(x)}
  {
    var t := s + [x];
    forall y | y in KeySet(t, key) ensures y in KeySet(s, key) + {key(x)} {
      var i :| 0 <= i < |t| && key(t[i]) == y;
      if i < |s| {
        assert t[i] == s[i];
      }
    }
    forall y | y in KeySet(s, key) ensures y in KeySet(t, key) {
      var i :| 0 <= i < |s| && key(s[i]) == y;
      assert t[i] == s[i];
    }
    assert t[|s|] == x;
  }

  /** Reading one more element into a filter-then-dedup pipeline: the output grows by it
      exactly when it passes the filter and its key has not passed before. */
  lemma DedupFilterSnoc<T, K>(s: seq<T>, x: T, p: T -> bool, key: T -> K)
    ensures DedupBy(Filter(s + [x], p), key, {}) ==
            DedupBy(Filter(s, p), key, {}) + (if p(x) && key(x) !in KeySet(Filter(s, p), key) then [x] else [])
  {
    var f := Filter(s, p);
    FilterSnoc(s, x, p);
    if p(x) {
      assert Filter(s + [x], p) == f + [x];
      DedupSnoc(f, x, key, {});
      assert {} + KeySet(f, key) == KeySet(f, key);
    } else {
      assert Filter(s + [x], p) == f;
    }
  }

  lemma KeySetFilterSnoc<T, K>(s: seq<T>, x: T, p: T -> bool, key: T -> K)
    ensures KeySet(Filter(s + [x], p), key) == KeySet(Filter(s, p), key) + (if p(x) then {key(x)} else {})
  {
    var f := Filter(s, p);
    FilterSnoc(s, x, p);
    if p(x) {
      KeySetSnoc(f, x, key);
    } else {
      assert Filter(s + [x], p) == f;
    }
  }

  /** `s.slice(0, n)` for a non-negative `n`. */
  function Take<T>(s: seq<T>, n: nat): (r: seq<T>)
    ensures |r| == (if n < |s| then n else |s|) && r == s[..|r|]
  {
    if n < |s| then s[..n] else s
  }

  predicate Distinct<T(==)>(s: seq<T>) {
    forall i, j :: 0 <= i < j < |s| ==> s[i] != s[j]
  }

  /** Everything in the input that passes the test survives the filter. */
  lemma {:induction false} FilterComplete<T>(s: seq<T>, p: T -> bool)
    ensures forall x :: x in s && p(x) ==> x in Filter(s, p)
    decreases |s|
  {
    if s != [] {
      var s' := s[..|s| - 1];
      FilterComplete(s', p);
      assert s == s' + [s[|s| - 1]];
      forall x | x in s && p(x) ensures x in Filter(s, p) {
        if x != s[|s| - 1] {
          assert x in s';
        }
      }
    }
  }

  /** Taking the first `n` survivors of a filter over a repetition-free list takes the
      earliest ones: a passing element before a taken one is taken as well, and when
      fewer than `n` are taken, every passing element is. */
  lemma {:induction false} TakeFilterFirst<T>(s: seq<T>, p: T -> bool, n: nat)
    requires Distinct(s)
    ensures forall x :: x in Take(Filter(s, p), n) ==> x in s && p(x)
    ensures |Take(Filter(s, p), n)| < n ==> forall x :: x in s && p(x) ==> x in Take(Filter(s, p), n)
    ensures forall i, j :: 0 <= i < j < |s| && p(s[i]) && s[j] in Take(Filter(s, p), n) ==>
              s[i] in Take(Filter(s, p), n)
    decreases |s|
  {
    FilterSound(s, p);
    FilterComplete(s, p);
    var r := Take(Filter(s, p), n);
    if s != [] {
      var s', x := s[..|s| - 1], s[|s| - 1];
      var f := Filter(s', p);
      assert s == s' + [x];
      assert Distinct(s');
      TakeFilterFirst(s', p, n);
      FilterSound(s', p);
      var r' := Take(f, n);
      assert Filter(s, p) == f + (if p(x) then [x] else []);
      if |f| >= n {
        assert r == r';
      } else {
        assert r' == f;
        assert r == Filter(s, p);
      }
      forall i, j | 0 <= i < j < |s| && p(s[i]) && s[j] in r ensures s[i] in r {
        if j == |s| - 1 {
          assert x !in s' by {
            forall k | 0 <= k < |s'| ensures s'[k] != x {
              assert s'[k] == s[k];
            }
          }
          assert x !in f;
          assert |f| < n;
          assert s[i] in s';
        } else {
          assert s[j] == s'[j] && s[i] == s'[i];
          if |f| < n {
            assert s[i] in s && p(s[i]);
          } else {
            assert s[j] in r';
          }
        }
      }
    }
  }

  /** Each element kept by the de-duplication is the first occurrence of its key in the
      input. */
  lemma {:induction false} DedupFirst<T, K>(s: seq<T>, key: T -> K, seen: set<K>)
    ensures forall x :: x in DedupBy(s, key, seen) ==>
              key(x) !in seen && exists j :: 0 <= j < |s| && s[j] == x && forall k :: 0 <= k < j ==> key(s[k]) != key(x)
    decreases |s|
  {
    if s != [] {
      var seen' := if key(s[0]) in seen then seen else seen + {key(s[0])};
      DedupFirst(s[1..], key, seen');
      forall x | x in DedupBy(s, key, seen)
        ensures key(x) !in seen && exists j :: 0 <= j < |s| && s[j] == x && forall k :: 0 <= k < j ==> key(s[k]) != key(x)
      {
        if key(s[0]) !in seen && x == s[0] {
          assert s[0] == x;
        } else {
          assert x in DedupBy(s[1..], key, seen');
          var j :| 0 <= j < |s[1..]| && s[1..][j] == x && forall k :: 0 <= k < j ==> key(s[1..][k]) != key(x);
          forall k | 0 <= k < j + 1 ensures key(s[k]) != key(x) {
            if k > 0 {
              assert s[k] == s[1..][k - 1];
            }
          }
        }
      }
    }
  }

  /** The `seen`-set filter as the services write it, starting from the keys in `seen`. */
  method Dedup<T, K>(s: seq<T>, key: T -> K, seen: set<K>) returns (r: seq<T>)
    ensures r == DedupBy(s, key, seen)
  {
    var seenSoFar := seen;
    r := [];
    for i := 0 to |s|
      invariant r == DedupBy(s[..i], key, seen)
      invariant seenSoFar == seen + KeySet(s[..i], key)
    {
      var x := s[i];
      assert s[..i + 1] == s[..i] + [x];
      DedupSnoc(s[..i], x, key, seen);
      KeySetSnoc(s[..i], x, key);
      if key(x) !in seenSoFar {
        r := r + [x];
      }
      seenSoFar := seenSoFar + {key(x)};
    }
    assert s[..|s|] == s;
  }

  /** With unique keys there are as many keys as elements. */
  lemma {:induction false} UniqueKeysCard<T, K>(s: seq<T>, key: T -> K)
    requires UniqueKeys(s, key)
    ensures |KeySet(s, key)| == |s|
    decreases |s|
  {
    if s != [] {
      var s', x := s[..|s| - 1], s[|s| - 1];
      assert s == s' + [x];
      assert UniqueKeys(s', key);
      UniqueKeysCard(s', key);
      KeySetSnoc(s', x, key);
      assert key(x) !in KeySet(s', key) by {
        forall i | 0 <= i < |s'| ensures key(s'[i]) != key(x) {
          assert s'[i] == s[i];
        }
      }
    }
  }

  /** A filter and its complement split the input between them. */
  lemma {:induction false} FilterSplit<T>(s: seq<T>, p: T -> bool, q: T -> bool)
    requires forall x :: q(x) == !p(x)
    ensures multiset(Filter(s, p)) + multiset(Filter(s, q)) == multiset(s)
    ensures |Filter(s, p)| + |Filter(s, q)| == |s|
    decreases |s|
  {
    if s != [] {
      var s', x := s[..|s| - 1], s[|s| - 1];
      assert s == s' + [x];
      FilterSplit(s', p, q);
    }
  }
}
