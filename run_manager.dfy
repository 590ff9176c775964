/** The discovery pipeline of one shopping spec (`runPipeline`): for each item, search,
    pick up to five diverse URLs, split them into product pages and catalog pages,
    extract candidates from product pages directly and from the product links of catalog
    pages, rank them, persist a run row, and finally let the language model adjust the
    coherence of the items' top picks. Every foreign call is an oracle in `Oracles`. */
module RunManager {
  import opened Types
  import opened Text
  import opened Seqs
  import opened Scrape
  import opened Ranking

  const MaxUrlsPerItem: nat := 5
  const MaxCatalogExtractUrls: nat := 6
  const DefaultMaxItems: int := 8

  // ---------------------------------------------------------------------------
  // Items to process

  /** The end index `Array.prototype.slice(0, end)` uses on a list of length `len`. */
  function SliceEnd(len: nat, end: int): nat {
    if end < 0 then (if len + end < 0 then 0 else len + end)
    else if end > len then len
    else end
  }

  /** `spec.items.slice(0, maxItems ?? 8)`: a prefix of the spec's items; a negative
      `maxItems` counts from the end, as `slice` does. */
  function ItemsToProcess(items: seq<SpecItem>, maxItems: Option<int>): (r: seq<SpecItem>)
    ensures |r| <= |items| && r == items[..|r|]
    ensures maxItems.None? ==> |r| == Min(8, |items|)
    ensures maxItems.Some? && maxItems.value >= 0 ==> |r| == Min(maxItems.value, |items|)
    ensures maxItems.Some? && maxItems.value < 0 ==> |r| == (if |items| + maxItems.value < 0 then 0 else |items| + maxItems.value)
  {
    items[..SliceEnd(|items|, if maxItems.Some? then maxItems.value else DefaultMaxItems)]
  }

  // ---------------------------------------------------------------------------
  // URL selection. Search hits are objects and `selected.includes(result)` compares
  // identities, so a selection is a list of positions in the hit list.

  function Domain(r: SearchResult): string { r.retailerDomain }

  predicate InRange(idx: seq<nat>, n: nat) {
    forall k :: 0 <= k < |idx| ==> idx[k] < n
  }

  /** The hits at the positions `idx`, in that order. */
  function Pick(rs: seq<SearchResult>, idx: seq<nat>): (r: seq<SearchResult>)
    requires InRange(idx, |rs|)
    ensures |r| == |idx| && forall k :: 0 <= k < |idx| ==> r[k] == rs[idx[k]]
    decreases |idx|
  {
    if idx == [] then [] else Pick(rs, idx[..|idx| - 1]) + [rs[idx[|idx| - 1]]]
  }

  /** The retailers of the hits at the positions `idx`. */
  function DomainsAt(rs: seq<SearchResult>, idx: seq<nat>): set<string>
    requires InRange(idx, |rs|)
    decreases |idx|
  {
    if idx == [] then {} else DomainsAt(rs, idx[..|idx| - 1]) + {rs[idx[|idx| - 1]].retailerDomain}
  }

  lemma PickSnoc(rs: seq<SearchResult>, idx: seq<nat>, i: nat)
    requires InRange(idx, |rs|) && i < |rs|
    ensures InRange(idx + [i], |rs|) && Pick(rs, idx + [i]) == Pick(rs, idx) + [rs[i]]
    ensures DomainsAt(rs, idx + [i]) == DomainsAt(rs, idx) + {rs[i].retailerDomain}
  {
    assert (idx + [i])[..|idx|] == idx;
  }

  lemma {:induction false} DomainsAtKeys(rs: seq<SearchResult>, idx: seq<nat>)
    requires InRange(idx, |rs|)
    ensures DomainsAt(rs, idx) == KeySet(Pick(rs, idx), Domain)
    decreases |idx|
  {
    if idx != [] {
      var p := idx[..|idx| - 1];
      DomainsAtKeys(rs, p);
      KeySetSnoc(Pick(rs, p), rs[idx[|idx| - 1]], Domain);
    }
  }

  /** Positions chosen by the first pass over the first `n` hits: a hit is taken when
      fewer than `max` are taken and its retailer has not been taken yet. */
  function FirstPass(rs: seq<SearchResult>, n: nat, max: nat): (sel: seq<nat>)
    requires n <= |rs|
    ensures InRange(sel, n) && |sel| <= max && |sel| <= n
    decreases n
  {
    if n == 0 then []
    else
      var p := FirstPass(rs, n - 1, max);
      if |p| < max && rs[n - 1].retailerDomain !in DomainsAt(rs, p) then p + [n - 1] else p
  }

  /** Positions after the second pass over the first `n` hits: a hit not chosen yet is
      appended while fewer than `max` are chosen. */
  function SecondPass(rs: seq<SearchResult>, n: nat, max: nat, first: seq<nat>): (sel: seq<nat>)
    requires n <= |rs| && InRange(first, |rs|)
    ensures InRange(sel, |rs|)
    decreases n
  {
    if n == 0 then first
    else
      var p := SecondPass(rs, n - 1, max, first);
      if |p| < max && n - 1 !in p then p + [n - 1] else p
  }

  function SelectedPositions(rs: seq<SearchResult>, max: nat): seq<nat> {
    SecondPass(rs, |rs|, max, FirstPass(rs, |rs|, max))
  }

  /** `selectUrls`: one hit per retailer first, then the remaining hits in order. */
  method SelectUrls(results: seq<SearchResult>, max: nat) returns (selected: seq<SearchResult>)
    ensures InRange(SelectedPositions(results, max), |results|)
    ensures selected == Pick(results, SelectedPositions(results, max))
  {
    var chosen;
    chosen, selected := PickDiverse(results, max);
    chosen, selected := FillRemaining(results, max, chosen, selected);
  }

  /** The first loop's state after `i` hits. */
  predicate Diverse(rs: seq<SearchResult>, i: nat, max: nat, chosen: seq<nat>, selected: seq<SearchResult>,
                    retailersSeen: set<string>)
  {
    && i <= |rs|
    && chosen == FirstPass(rs, i, max)
    && selected == Pick(rs, chosen)
    && retailersSeen == DomainsAt(rs, chosen)
  }

  lemma DiverseStep(rs: seq<SearchResult>, i: nat, max: nat, chosen: seq<nat>, selected: seq<SearchResult>,
                    retailersSeen: set<string>)
    requires Diverse(rs, i, max, chosen, selected, retailersSeen) && i < |rs| && |selected| < max
    ensures var take := rs[i].retailerDomain !in retailersSeen;
      Diverse(rs, i + 1, max,
              if take then chosen + [i] else chosen,
              if take then selected + [rs[i]] else selected,
              if take then retailersSeen + {rs[i].retailerDomain} else retailersSeen)
  {
    PickSnoc(rs, chosen, i);
  }

  /** The first loop of `selectUrls`: the first hit of each retailer not seen yet. */
  method PickDiverse(results: seq<SearchResult>, max: nat) returns (chosen: seq<nat>, selected: seq<SearchResult>)
    ensures chosen == FirstPass(results, |results|, max)
    ensures selected == Pick(results, chosen)
  {
    chosen := [];
    selected := [];
    var retailersSeen: set<string> := {};
    for i := 0 to |results|
      invariant Diverse(results, i, max, chosen, selected, retailersSeen)
    {
      if |selected| >= max {
        FirstPassStable(results, i, |results|, max);
        return;
      }
      DiverseStep(results, i, max, chosen, selected, retailersSeen);
      var result := results[i];
      if result.retailerDomain !in retailersSeen {
        chosen := chosen + [i];
        selected := selected + [result];
        retailersSeen := retailersSeen + {result.retailerDomain};
      }
    }
  }

  /** The second loop of `selectUrls`: hits not selected yet (by identity), in order. */
  method FillRemaining(results: seq<SearchResult>, max: nat, first: seq<nat>, firstSelected: seq<SearchResult>)
    returns (chosen: seq<nat>, selected: seq<SearchResult>)
    requires InRange(first, |results|) && firstSelected == Pick(results, first)
    ensures chosen == SecondPass(results, |results|, max, first)
    ensures selected == Pick(results, chosen)
  {
    chosen, selected := first, firstSelected;
    for i := 0 to |results|
      invariant chosen == SecondPass(results, i, max, first)
      invariant selected == Pick(results, chosen)
    {
      if |selected| >= max {
        assert |chosen| >= max;
        SecondPassDone(results, i, max, first, chosen);
        return;
      }
      if i !in chosen {
        PickSnoc(results, chosen, i);
        chosen := chosen + [i];
        selected := selected + [results[i]];
      }
    }
  }

  /** Once `max` positions are chosen, the rest of the second pass keeps them. */
  lemma SecondPassDone(rs: seq<SearchResult>, i: nat, max: nat, first: seq<nat>, p: seq<nat>)
    requires i <= |rs| && InRange(first, |rs|) && SecondPass(rs, i, max, first) == p && |p| >= max
    ensures SecondPass(rs, |rs|, max, first) == p
  {
    SecondPassStable(rs, i, |rs|, max, first);
  }

  lemma {:induction false} FirstPassStable(rs: seq<SearchResult>, i: nat, j: nat, max: nat)
    requires i <= j <= |rs| && |FirstPass(rs, i, max)| >= max
    ensures FirstPass(rs, j, max) == FirstPass(rs, i, max)
    decreases j
  {
    if j > i {
      FirstPassStable(rs, i, j - 1, max);
    }
  }

  lemma {:induction false} SecondPassStable(rs: seq<SearchResult>, i: nat, j: nat, max: nat, first: seq<nat>)
    requires i <= j <= |rs| && InRange(first, |rs|) && |SecondPass(rs, i, max, first)| >= max
    ensures SecondPass(rs, j, max, first) == SecondPass(rs, i, max, first)
    decreases j
  {
    if j > i {
      SecondPassStable(rs, i, j - 1, max, first);
    }
  }

  /** The first pass keeps the first hit of each retailer, in order, until it has `max`:
      it is the de-duplication of the hits by retailer, cut to `max`. */
  lemma {:induction false} FirstPassIsDedup(rs: seq<SearchResult>, n: nat, max: nat)
    requires n <= |rs|
    ensures Pick(rs, FirstPass(rs, n, max)) == Take(DedupBy(rs[..n], Domain, {}), max)
    decreases n
  {
    if n > 0 {
      FirstPassIsDedup(rs, n - 1, max);
      FirstPassStep(rs, n, max);
    }
  }

  lemma FirstPassStep(rs: seq<SearchResult>, n: nat, max: nat)
    requires 0 < n <= |rs|
    requires Pick(rs, FirstPass(rs, n - 1, max)) == Take(DedupBy(rs[..n - 1], Domain, {}), max)
    ensures Pick(rs, FirstPass(rs, n, max)) == Take(DedupBy(rs[..n], Domain, {}), max)
  {
    var p := FirstPass(rs, n - 1, max);
    var q := FirstPass(rs, n, max);
    assert q == if |p| < max && rs[n - 1].retailerDomain !in DomainsAt(rs, p) then p + [n - 1] else p;
    var d := DedupBy(rs[..n - 1], Domain, {});
    var seen := KeySet(rs[..n - 1], Domain);
    DedupPrefixStep(rs, n);
    if |p| < max {
      ChosenDomains(rs, p, rs[..n - 1], max);
      FirstPassStepOpen(rs, p, q, n - 1, max, d, DedupBy(rs[..n], Domain, {}), seen);
    } else {
      TakeAppend(d, if Domain(rs[n - 1]) in seen then [] else [rs[n - 1]], max);
    }
  }

  /** Extending the prefix by one hit extends its de-duplication by that hit exactly when
      its retailer is new. */
  lemma DedupPrefixStep(rs: seq<SearchResult>, n: nat)
    requires 0 < n <= |rs|
    ensures DedupBy(rs[..n], Domain, {})
         == DedupBy(rs[..n - 1], Domain, {}) + (if Domain(rs[n - 1]) in KeySet(rs[..n - 1], Domain) then [] else [rs[n - 1]])
  {
    assert rs[..n] == rs[..n - 1] + [rs[n - 1]];
    DedupSnoc(rs[..n - 1], rs[n - 1], Domain, {});
    assert {} + KeySet(rs[..n - 1], Domain) == KeySet(rs[..n - 1], Domain);
  }

  /** While fewer than `max` hits are chosen, nothing of the de-duplicated prefix `s` was
      cut, so the chosen retailers are all the retailers of `s`. */
  lemma ChosenDomains(rs: seq<SearchResult>, p: seq<nat>, s: seq<SearchResult>, max: nat)
    requires InRange(p, |rs|) && |p| < max
    requires Pick(rs, p) == Take(DedupBy(s, Domain, {}), max)
    ensures DomainsAt(rs, p) == KeySet(s, Domain)
  {
    DedupKeys(s, Domain, {});
    assert KeySet(s, Domain) - {} == KeySet(s, Domain);
    DomainsAtKeys(rs, p);
  }

  /** Cutting to `m` ignores what is appended after `m` elements. */
  lemma TakeAppend(d: seq<SearchResult>, e: seq<SearchResult>, m: nat)
    requires |d| >= m
    ensures Take(d + e, m) == Take(d, m)
  {
  }

  /** The step of `FirstPassStep` while fewer than `max` hits are chosen: nothing was cut
      yet, so position `i` is chosen exactly when it extends the de-duplicated prefix `d`. */
  lemma FirstPassStepOpen(rs: seq<SearchResult>, p: seq<nat>, q: seq<nat>, i: nat, max: nat,
                          d: seq<SearchResult>, d': seq<SearchResult>, seen: set<string>)
    requires InRange(p, |rs|) && i < |rs| && |p| < max
    requires q == if rs[i].retailerDomain !in seen then p + [i] else p
    requires Pick(rs, p) == Take(d, max)
    requires d' == d + (if Domain(rs[i]) in seen then [] else [rs[i]])
    ensures InRange(q, |rs|) && Pick(rs, q) == Take(d', max)
  {
    var isNew := rs[i].retailerDomain !in seen;
    OpenTake(Pick(rs, p), d, rs[i], isNew, max);
    PickSnoc(rs, p, i);
  }

  /** Below the cap, cutting is the identity, so one more element is simply appended. */
  lemma OpenTake(pick: seq<SearchResult>, d: seq<SearchResult>, x: SearchResult, isNew: bool, max: nat)
    requires pick == Take(d, max) && |pick| < max
    ensures (if isNew then pick + [x] else pick) == Take(d + (if isNew then [x] else []), max)
  {
    assert pick == d;
  }

  /** The second pass appends, in input order, the positions the first pass left out,
      until `max` are chosen. */
  function Unchosen(n: nat, first: seq<nat>): (r: seq<nat>)
    ensures InRange(r, n)
    ensures forall k :: 0 <= k < |r| ==> r[k] !in first
    decreases n
  {
    if n == 0 then [] else Unchosen(n - 1, first) + (if n - 1 in first then [] else [n - 1])
  }

  lemma {:induction false} SecondPassAppends(rs: seq<SearchResult>, n: nat, max: nat, first: seq<nat>)
    requires n <= |rs| && InRange(first, |rs|) && |first| <= max
    ensures SecondPass(rs, n, max, first) == first + Take(Unchosen(n, first), max - |first|)
    decreases n
  {
    if n > 0 {
      SecondPassAppends(rs, n - 1, max, first);
      var u := Unchosen(n - 1, first);
      var m := max - |first|;
      var p := SecondPass(rs, n - 1, max, first);
      if n - 1 !in first {
        assert Unchosen(n, first) == u + [n - 1];
        if |u| < m {
          assert p == first + u;
          assert n - 1 !in p by {
            forall k | 0 <= k < |u| ensures u[k] != n - 1 {
              assert u[k] < n - 1;
            }
          }
        } else {
          assert Take(u + [n - 1], m) == Take(u, m);
        }
      } else {
        assert n - 1 in p;
      }
    }
  }

  /** `{0, …, n-1}` */
  function Range(n: nat): (r: set<nat>)
    ensures forall k: nat :: k in r <==> k < n
    ensures |r| == n
  {
    if n == 0 then {} else Range(n - 1) + {n - 1}
  }

  function Elems(idx: seq<nat>): set<nat> {
    set x | x in idx
  }

  lemma {:induction false} DistinctCard(idx: seq<nat>)
    requires Distinct(idx)
    ensures |Elems(idx)| == |idx|
    decreases |idx|
  {
    if idx != [] {
      var p := idx[..|idx| - 1];
      assert idx == p + [idx[|idx| - 1]];
      assert Distinct(p);
      DistinctCard(p);
      assert Elems(idx) == Elems(p) + {idx[|idx| - 1]};
      assert idx[|idx| - 1] !in Elems(p) by {
        forall k | 0 <= k < |p| ensures p[k] != idx[|idx| - 1] {
          assert p[k] == idx[k];
        }
      }
    }
  }

  lemma SubsetCard(a: set<nat>, b: set<nat>)
    requires a <= b
    ensures |a| <= |b|
  {
    assert b == a + (b - a);
    assert a * (b - a) == {};
  }

  /** A repetition-free list of positions below `n` has at most `n` entries, and exactly
      `n` when it holds every one of them. */
  lemma PositionsCard(idx: seq<nat>, n: nat)
    requires InRange(idx, n) && Distinct(idx)
    ensures |idx| <= n
    ensures (forall k :: 0 <= k < n ==> k in idx) ==> |idx| == n
  {
    DistinctCard(idx);
    SubsetCard(Elems(idx), Range(n));
    if forall k :: 0 <= k < n ==> k in idx {
      SubsetCard(Range(n), Elems(idx));
    }
  }

  lemma {:induction false} FirstPassDistinct(rs: seq<SearchResult>, n: nat, max: nat)
    requires n <= |rs|
    ensures Distinct(FirstPass(rs, n, max))
    decreases n
  {
    if n > 0 {
      FirstPassDistinct(rs, n - 1, max);
    }
  }

  lemma {:induction false} SecondPassCovers(rs: seq<SearchResult>, n: nat, max: nat, first: seq<nat>)
    requires n <= |rs| && InRange(first, |rs|) && Distinct(first)
    ensures Distinct(SecondPass(rs, n, max, first))
    ensures |SecondPass(rs, n, max, first)| < max ==> forall k :: 0 <= k < n ==> k in SecondPass(rs, n, max, first)
    ensures |first| <= max ==> |SecondPass(rs, n, max, first)| <= max
    decreases n
  {
    if n > 0 {
      SecondPassCovers(rs, n - 1, max, first);
    }
  }

  /** `selectUrls(results, max)` chooses `min(max, n)` different hits. */
  lemma SelectCount(rs: seq<SearchResult>, max: nat)
    ensures Distinct(SelectedPositions(rs, max))
    ensures |SelectedPositions(rs, max)| == Min(max, |rs|)
  {
    var first := FirstPass(rs, |rs|, max);
    var sel := SelectedPositions(rs, max);
    FirstPassDistinct(rs, |rs|, max);
    SecondPassCovers(rs, |rs|, max, first);
    PositionsCard(sel, |rs|);
  }

  /** The selection is the first hit of each retailer, in order, up to `max`, followed by
      the other hits in their order until `max` are chosen. */
  lemma SelectShape(rs: seq<SearchResult>, max: nat)
    ensures var first := FirstPass(rs, |rs|, max);
      && Pick(rs, first) == Take(DedupBy(rs, Domain, {}), max)
      && Pick(rs, SelectedPositions(rs, max)) == Pick(rs, first) + Pick(rs, Take(Unchosen(|rs|, first), max - |first|))
  {
    var first := FirstPass(rs, |rs|, max);
    FirstPassIsDedup(rs, |rs|, max);
    assert rs[..|rs|] == rs;
    SecondPassAppends(rs, |rs|, max, first);
    PickAppend(rs, first, Take(Unchosen(|rs|, first), max - |first|));
  }

  /** When the hits span at least `max` retailers, the selection is the first hit of each
      of the first `max` retailers, all retailers different. */
  lemma SelectDiverse(rs: seq<SearchResult>, max: nat)
    requires |KeySet(rs, Domain)| >= max
    ensures Pick(rs, SelectedPositions(rs, max)) == Take(DedupBy(rs, Domain, {}), max)
    ensures UniqueKeys(Pick(rs, SelectedPositions(rs, max)), Domain)
  {
    var first := FirstPass(rs, |rs|, max);
    FirstPassFull(rs, max);
    SecondPassStable(rs, 0, |rs|, max, first);
    DedupSound(rs, Domain, {});
    TakeUniqueKeys(DedupBy(rs, Domain, {}), Domain, max);
  }

  lemma FirstPassFull(rs: seq<SearchResult>, max: nat)
    requires |KeySet(rs, Domain)| >= max
    ensures Pick(rs, FirstPass(rs, |rs|, max)) == Take(DedupBy(rs, Domain, {}), max)
    ensures |FirstPass(rs, |rs|, max)| == max
  {
    var d := DedupBy(rs, Domain, {});
    FirstPassIsDedup(rs, |rs|, max);
    assert rs[..|rs|] == rs;
    DedupSound(rs, Domain, {});
    DedupKeys(rs, Domain, {});
    UniqueKeysCard(d, Domain);
    assert KeySet(rs, Domain) - {} == KeySet(rs, Domain);
  }

  lemma TakeUniqueKeys(d: seq<SearchResult>, key: SearchResult -> string, n: nat)
    requires UniqueKeys(d, key)
    ensures UniqueKeys(Take(d, n), key)
  {
    var t := Take(d, n);
    forall i, j | 0 <= i < j < |t| ensures key(t[i]) != key(t[j]) {
      assert t[i] == d[i] && t[j] == d[j];
    }
  }

  lemma PickAppend(rs: seq<SearchResult>, a: seq<nat>, b: seq<nat>)
    requires InRange(a, |rs|) && InRange(b, |rs|)
    ensures InRange(a + b, |rs|) && Pick(rs, a + b) == Pick(rs, a) + Pick(rs, b)
  {
  }

  /** The worked case: retailers A, A, B, C, A with `max` 3 select the first A, B and C. */
  lemma SelectExample(a1: SearchResult, a2: SearchResult, b: SearchResult, c: SearchResult, a3: SearchResult)
    requires a1.retailerDomain == a2.retailerDomain == a3.retailerDomain == "a"
    requires b.retailerDomain == "b" && c.retailerDomain == "c"
    ensures SelectedPositions([a1, a2, b, c, a3], 3) == [0, 2, 3]
  {
    var rs := [a1, a2, b, c, a3];
    ExampleFirstPass(rs);
    SecondPassStable(rs, 0, 5, 3, [0, 2, 3]);
  }

  /** The first pass on five hits whose retailers are `x, x, y, z, x` with `x, y, z` distinct. */
  lemma ExampleFirstPass(rs: seq<SearchResult>)
    requires |rs| == 5
    requires rs[1].retailerDomain == rs[0].retailerDomain && rs[4].retailerDomain == rs[0].retailerDomain
    requires rs[2].retailerDomain != rs[0].retailerDomain
    requires rs[3].retailerDomain != rs[0].retailerDomain && rs[3].retailerDomain != rs[2].retailerDomain
    ensures FirstPass(rs, 5, 3) == [0, 2, 3]
  {
    ExampleFour(rs);
    FirstPassStable(rs, 4, 5, 3);
  }

  lemma ExampleTwo(rs: seq<SearchResult>)
    requires |rs| == 5 && rs[1].retailerDomain == rs[0].retailerDomain
    ensures FirstPass(rs, 2, 3) == [0]
  {
    FirstPassTake(rs, 1, 3, []);
    DomainsOne(rs, 0);
    FirstPassSkip(rs, 2, 3, [0]);
  }

  lemma ExampleThree(rs: seq<SearchResult>)
    requires |rs| == 5 && rs[1].retailerDomain == rs[0].retailerDomain
    requires rs[2].retailerDomain != rs[0].retailerDomain
    ensures FirstPass(rs, 3, 3) == [0, 2]
  {
    ExampleTwo(rs);
    DomainsOne(rs, 0);
    FirstPassTake(rs, 3, 3, [0]);
  }

  lemma ExampleFour(rs: seq<SearchResult>)
    requires |rs| == 5 && rs[1].retailerDomain == rs[0].retailerDomain
    requires rs[2].retailerDomain != rs[0].retailerDomain
    requires rs[3].retailerDomain != rs[0].retailerDomain && rs[3].retailerDomain != rs[2].retailerDomain
    ensures FirstPass(rs, 4, 3) == [0, 2, 3]
  {
    ExampleThree(rs);
    DomainsTwo(rs, 0, 2);
    FirstPassTake(rs, 4, 3, [0, 2]);
  }

  lemma DomainsOne(rs: seq<SearchResult>, i: nat)
    requires i < |rs|
    ensures InRange([i], |rs|) && DomainsAt(rs, [i]) == {rs[i].retailerDomain}
  {
    assert [i][..0] == [];
  }

  lemma DomainsTwo(rs: seq<SearchResult>, i: nat, j: nat)
    requires i < |rs| && j < |rs|
    ensures InRange([i, j], |rs|) && DomainsAt(rs, [i, j]) == {rs[i].retailerDomain, rs[j].retailerDomain}
  {
    DomainsOne(rs, i);
    assert [i, j][..1] == [i];
  }

  /** The first pass takes the `n`-th hit when there is room and its retailer is new. */
  lemma FirstPassTake(rs: seq<SearchResult>, n: nat, max: nat, p: seq<nat>)
    requires 0 < n <= |rs| && FirstPass(rs, n - 1, max) == p
    requires InRange(p, |rs|) && |p| < max && rs[n - 1].retailerDomain !in DomainsAt(rs, p)
    ensures FirstPass(rs, n, max) == p + [n - 1]
  {
  }

  /** The first pass skips the `n`-th hit when its retailer is taken already. */
  lemma FirstPassSkip(rs: seq<SearchResult>, n: nat, max: nat, p: seq<nat>)
    requires 0 < n <= |rs| && FirstPass(rs, n - 1, max) == p
    requires InRange(p, |rs|) && rs[n - 1].retailerDomain in DomainsAt(rs, p)
    ensures FirstPass(rs, n, max) == p
  {
  }


  // ---------------------------------------------------------------------------
  // The foreign calls of a pipeline run

  /** A page to extract from: its URL and its raw markdown (None when missing or null).
      Both a search hit and an entry of the bulk extract reply carry these two fields. */
  datatype Page = Page(url: string, rawContent: Option<string>)

  /** What the ranking model is shown: the item, its candidates and the top picks so far. */
  datatype ScoringPrompt = ScoringPrompt(item: SpecItem, candidates: seq<Candidate>, otherTopPicks: seq<Candidate>)

  /** The answers of everything outside the pipeline. `None` stands for a call that threw.
      `newId(itemId, url)` is the `uuidv4()` drawn for the candidate extracted from `url`
      for the item; `deadlineDays` is `getDaysUntilDeadline(spec.deliveryDeadline)`, which
      reads the clock, and is `None` exactly when the spec has no (non-empty) deadline. */
  datatype Oracles = Oracles(
    search: SpecItem -> Option<seq<SearchResult>>,
    extractLlm: Prompt -> Option<ExtractedProduct>,
    newId: (string, string) -> string,
    extractPages: seq<string> -> Option<seq<Page>>,
    scoreLlm: ScoringPrompt -> Option<seq<ModelScore>>,
    explain: SpecItem -> Candidate -> Option<string>,
    coherence: seq<TopPick> -> Option<seq<Adjustment>>,
    deadlineDays: Option<int>)

  // ---------------------------------------------------------------------------
  // Classification of the selected hits

  predicate IsCatalogHit(r: SearchResult) { ClassifyUrl(r.url) == Catalog }

  predicate IsDirectHit(r: SearchResult) { ClassifyUrl(r.url) != Catalog }

  /** The classification loop: catalog URLs to one list, product and unknown URLs to the other. */
  method Partition(selected: seq<SearchResult>) returns (productUrls: seq<SearchResult>, catalogUrls: seq<SearchResult>)
    ensures productUrls == Filter(selected, IsDirectHit)
    ensures catalogUrls == Filter(selected, IsCatalogHit)
  {
    productUrls, catalogUrls := [], [];
    for i := 0 to |selected|
      invariant productUrls == Filter(selected[..i], IsDirectHit)
      invariant catalogUrls == Filter(selected[..i], IsCatalogHit)
    {
      var result := selected[i];
      assert selected[..i + 1] == selected[..i] + [result];
      FilterSnoc(selected[..i], result, IsDirectHit);
      FilterSnoc(selected[..i], result, IsCatalogHit);
      if ClassifyUrl(result.url) == Catalog {
        catalogUrls := catalogUrls + [result];
      } else {
        productUrls := productUrls + [result];
      }
    }
    assert selected[..|selected|] == selected;
  }

  /** Every selected hit lands in exactly one of the two lists, catalog URLs in the
      catalog list and product or unknown URLs in the direct list. */
  lemma PartitionFacts(selected: seq<SearchResult>)
    ensures multiset(Filter(selected, IsDirectHit)) + multiset(Filter(selected, IsCatalogHit)) == multiset(selected)
    ensures forall r :: r in Filter(selected, IsDirectHit) ==> ClassifyUrl(r.url) in {Product, Unknown}
    ensures forall r :: r in Filter(selected, IsCatalogHit) ==> ClassifyUrl(r.url) == Catalog
  {
    FilterSplit(selected, IsDirectHit, IsCatalogHit);
    FilterSound(selected, IsDirectHit);
    FilterSound(selected, IsCatalogHit);
  }

  // ---------------------------------------------------------------------------
  // Extraction

  function AsPage(r: SearchResult): Page { Page(r.url, r.rawContent) }

  function AsPages(rs: seq<SearchResult>): (ps: seq<Page>)
    ensures |ps| == |rs| && forall i :: 0 <= i < |rs| ==> ps[i] == AsPage(rs[i])
    decreases |rs|
  {
    if rs == [] then [] else AsPages(rs[..|rs| - 1]) + [AsPage(rs[|rs| - 1])]
  }

  /** `if (!rawContent) return null; return extractFromMarkdown(rawContent, url, item)`. */
  function PageCandidate(p: Page, item: SpecItem, o: Oracles): Option<Candidate> {
    if Truthy(p.rawContent) then ExtractFromMarkdown(p.rawContent.value, p.url, item.name, o.newId(item.id, p.url), o.extractLlm)
    else None
  }

  /** The candidates extracted from `ps`, in page order. */
  function Candidates(ps: seq<Page>, item: SpecItem, o: Oracles): seq<Candidate>
    decreases |ps|
  {
    if ps == [] then []
    else
      var c := PageCandidate(ps[|ps| - 1], item, o);
      Candidates(ps[..|ps| - 1], item, o) + (if c.Some? then [c.value] else [])
  }

  /** A direct hit whose extraction failed, whose URL is of unknown kind and whose text
      looks like a listing is moved to the catalog list. */
  predicate Reclassify(r: SearchResult, item: SpecItem, o: Oracles) {
    && Truthy(r.rawContent)
    && PageCandidate(AsPage(r), item, o).None?
    && ClassifyUrl(r.url) == Unknown
    && DetectCatalogFromContent(r.rawContent.value)
  }

  function Reclassified(rs: seq<SearchResult>, item: SpecItem, o: Oracles): seq<SearchResult>
    decreases |rs|
  {
    if rs == [] then []
    else Reclassified(rs[..|rs| - 1], item, o) + (if Reclassify(rs[|rs| - 1], item, o) then [rs[|rs| - 1]] else [])
  }

  /** One more direct hit extends the candidates and the moved hits by its own share. */
  lemma PhaseAStep(rs: seq<SearchResult>, i: nat, item: SpecItem, o: Oracles)
    requires i < |rs|
    ensures var c := PageCandidate(AsPage(rs[i]), item, o);
      Candidates(AsPages(rs[..i + 1]), item, o) == Candidates(AsPages(rs[..i]), item, o) + (if c.Some? then [c.value] else [])
    ensures Reclassified(rs[..i + 1], item, o)
      == Reclassified(rs[..i], item, o) + (if Reclassify(rs[i], item, o) then [rs[i]] else [])
  {
    assert rs[..i + 1][..i] == rs[..i];
    assert AsPages(rs[..i + 1])[..i] == AsPages(rs[..i]);
  }

  /** Phase A, run one page after the other: candidates from the direct hits, and the
      direct hits that turn out to be catalogs. */
  method PhaseA(productUrls: seq<SearchResult>, item: SpecItem, o: Oracles)
    returns (candidates: seq<Candidate>, reclassified: seq<SearchResult>)
    ensures candidates == Candidates(AsPages(productUrls), item, o)
    ensures reclassified == Reclassified(productUrls, item, o)
  {
    candidates, reclassified := [], [];
    for i := 0 to |productUrls|
      invariant candidates == Candidates(AsPages(productUrls[..i]), item, o)
      invariant reclassified == Reclassified(productUrls[..i], item, o)
    {
      PhaseAStep(productUrls, i, item, o);
      var result := productUrls[i];
      var candidate := PageCandidate(AsPage(result), item, o);
      if candidate.Some? {
        candidates := candidates + [candidate.value];
      } else if Truthy(result.rawContent) && ClassifyUrl(result.url) == Unknown
        && DetectCatalogFromContent(result.rawContent.value) {
        reclassified := reclassified + [result];
      }
    }
    assert productUrls[..|productUrls|] == productUrls;
  }

  /** A product URL is never moved to the catalog list, and a moved hit is an unknown URL
      with raw content whose extraction failed and whose text has two catalog signals. */
  lemma ReclassifiedFacts(rs: seq<SearchResult>, item: SpecItem, o: Oracles)
    ensures forall r :: r in Reclassified(rs, item, o) ==>
      r in rs && ClassifyUrl(r.url) == Unknown && Truthy(r.rawContent)
      && PageCandidate(AsPage(r), item, o).None? && DetectCatalogFromContent(r.rawContent.value)
    decreases |rs|
  {
    if rs != [] {
      ReclassifiedFacts(rs[..|rs| - 1], item, o);
    }
  }

  /** The extraction loop over the bulk extract reply. */
  method ExtractAll(pages: seq<Page>, item: SpecItem, o: Oracles) returns (candidates: seq<Candidate>)
    ensures candidates == Candidates(pages, item, o)
  {
    candidates := [];
    for i := 0 to |pages|
      invariant candidates == Candidates(pages[..i], item, o)
    {
      assert pages[..i + 1][..i] == pages[..i];
      var candidate := PageCandidate(pages[i], item, o);
      if candidate.Some? {
        candidates := candidates + [candidate.value];
      }
    }
    assert pages[..|pages|] == pages;
  }

  // ---------------------------------------------------------------------------
  // Phase B: links harvested from catalog pages

  /** The links harvested from the catalog hits with raw content, in order, or the first
      harvesting error, which the pipeline does not catch. */
  function CatalogPageLinks(rs: seq<SearchResult>): Result<seq<Link>>
    decreases |rs|
  {
    if rs == [] then Ok([])
    else
      var prev := CatalogPageLinks(rs[..|rs| - 1]);
      var r := rs[|rs| - 1];
      if prev.Err? || !Truthy(r.rawContent) then prev
      else match CatalogLinks(r.rawContent.value, r.url)
        case Err(m) => Err(m)
        case Ok(links) => Ok(prev.value + links)
  }

  lemma {:induction false} CatalogPageLinksFailed(rs: seq<SearchResult>, n: nat)
    requires n <= |rs| && CatalogPageLinks(rs[..n]).Err?
    ensures CatalogPageLinks(rs) == CatalogPageLinks(rs[..n])
    decreases |rs| - n
  {
    if n < |rs| {
      assert rs[..n + 1][..n] == rs[..n];
      CatalogPageLinksFailed(rs, n + 1);
    } else {
      assert rs[..n] == rs;
    }
  }

  /** The first loop of Phase B. */
  method CollectLinks(catalogUrls: seq<SearchResult>) returns (r: Result<seq<Link>>)
    ensures r == CatalogPageLinks(catalogUrls)
  {
    var allProductLinks: seq<Link> := [];
    for i := 0 to |catalogUrls|
      invariant CatalogPageLinks(catalogUrls[..i]) == Ok(allProductLinks)
    {
      var result := catalogUrls[i];
      assert catalogUrls[..i + 1][..i] == catalogUrls[..i];
      if !Truthy(result.rawContent) {
        continue;
      }
      var links := ExtractProductLinksFromCatalog(result.rawContent.value, result.url);
      if links.Err? {
        CatalogPageLinksFailed(catalogUrls, i + 1);
        return Err(links.message);
      }
      if |links.value| > 0 {
        allProductLinks := allProductLinks + links.value;
      } else {
        assert allProductLinks + links.value == allProductLinks;
      }
    }
    assert catalogUrls[..|catalogUrls|] == catalogUrls;
    r := Ok(allProductLinks);
  }

  function ProductUrl(c: Candidate): string { c.productUrl }

  /** The catalog-derived links worth extracting: URLs not already candidates, each once,
      in first-seen order, at most six. */
  function LinksToExtract(all: seq<Link>, candidates: seq<Candidate>): seq<Link> {
    Take(DedupBy(all, LinkUrl, KeySet(candidates, ProductUrl)), MaxCatalogExtractUrls)
  }

  /** At most six links, no URL twice, none the URL of a candidate already extracted, each
      the first link with its URL among the harvested ones. */
  lemma LinksToExtractFacts(all: seq<Link>, candidates: seq<Candidate>)
    ensures var r := LinksToExtract(all, candidates);
      && |r| <= 6
      && UniqueKeys(r, LinkUrl)
      && (forall l :: l in r ==> l in all && l.url !in KeySet(candidates, ProductUrl))
      && (forall l :: l in r ==> exists j :: 0 <= j < |all| && all[j] == l && forall k :: 0 <= k < j ==> all[k].url != l.url)
  {
    var seen := KeySet(candidates, ProductUrl);
    var d := DedupBy(all, LinkUrl, seen);
    DedupSound(all, LinkUrl, seen);
    DedupFirst(all, LinkUrl, seen);
    var r := LinksToExtract(all, candidates);
    forall i, j | 0 <= i < j < |r| ensures LinkUrl(r[i]) != LinkUrl(r[j]) {
      assert r[i] == d[i] && r[j] == d[j];
    }
    forall l | l in r ensures l in d {
      var i :| 0 <= i < |r| && r[i] == l;
      assert d[i] == l;
    }
  }

  function LinkUrls(ls: seq<Link>): (us: seq<string>)
    ensures |us| == |ls| && forall i :: 0 <= i < |ls| ==> us[i] == ls[i].url
    decreases |ls|
  {
    if ls == [] then [] else LinkUrls(ls[..|ls| - 1]) + [ls[|ls| - 1].url]
  }

  /** Candidates from the bulk extract of `links`: none when there is nothing to extract or
      the call throws (the failure is caught). */
  function LinkCandidates(links: seq<Link>, item: SpecItem, o: Oracles): seq<Candidate> {
    if links == [] then []
    else match o.extractPages(LinkUrls(links))
      case None => []
      case Some(pages) => Candidates(pages, item, o)
  }

  // ---------------------------------------------------------------------------
  // One item

  /** Every candidate of one item before ranking, or the harvesting error. */
  function ItemCandidates(item: SpecItem, searchResults: seq<SearchResult>, o: Oracles): Result<seq<Candidate>> {
    var selected := Pick(searchResults, SelectedPositions(searchResults, MaxUrlsPerItem));
    var direct := Filter(selected, IsDirectHit);
    var catalog := Filter(selected, IsCatalogHit) + Reclassified(direct, item, o);
    PhaseBOutcome(Candidates(AsPages(direct), item, o), catalog, item, o)
  }

  /** Phase B: the candidates of Phase A followed by those extracted from catalog links,
      or the harvesting error. */
  function PhaseBOutcome(candidates: seq<Candidate>, catalog: seq<SearchResult>, item: SpecItem, o: Oracles): Result<seq<Candidate>> {
    match CatalogPageLinks(catalog)
    case Err(m) => Err(m)
    case Ok(all) => Ok(candidates + LinkCandidates(LinksToExtract(all, candidates), item, o))
  }

  /** One row of the `item_runs` table. */
  datatype RunRow = RunRow(itemId: string, version: nat, query: string, results: seq<SearchResult>,
                           ranked: seq<Candidate>, trace: string)

  function Trace(query: string, found: nat, extracted: nat, ranked: nat): string {
    "Searched for \"" + query + "\", found " + NatToString(found) + " results, extracted "
    + NatToString(extracted) + " candidates, ranked top " + NatToString(ranked)
  }

  datatype ItemOutcome = ItemOutcome(result: ItemRunResult, row: RunRow)

  /** What the loop body of `runPipeline` produces for one item, given the top picks of
      the items before it. */
  function ProcessItemSpec(item: SpecItem, otherTopPicks: seq<Candidate>, o: Oracles): Result<ItemOutcome> {
    match o.search(item)
    case None => Err("search failed")
    case Some(searchResults) =>
      match ItemCandidates(item, searchResults, o)
      case Err(m) => Err(m)
      case Ok(candidates) =>
        var llm := o.scoreLlm(ScoringPrompt(item, candidates, otherTopPicks));
        match ScoreOutcome(candidates, item.budgetAllocation, o.deadlineDays, llm, o.explain(item))
        case Err(m) => Err(m)
        case Ok(ranked) => Ok(Outcome(item, searchResults, |candidates|, ranked))
  }

  /** The item result and the persisted row for an item whose ranking is `ranked`. */
  function Outcome(item: SpecItem, searchResults: seq<SearchResult>, extracted: nat, ranked: seq<Candidate>): ItemOutcome {
    var searchQuery := item.name;
    ItemOutcome(ItemRunResult(item.id, item.name, ranked, searchQuery),
                RunRow(item.id, 1, searchQuery, searchResults, ranked,
                       Trace(searchQuery, |searchResults|, extracted, |ranked|)))
  }


  /** The loop body of `runPipeline` for one item. */
  method ProcessItem(item: SpecItem, otherTopPicks: seq<Candidate>, o: Oracles) returns (r: Result<ItemOutcome>)
    ensures r == ProcessItemSpec(item, otherTopPicks, o)
  {
    var search := o.search(item);
    if search.None? {
      return Err("search failed");
    }
    var searchResults := search.value;
    var candidates := GatherCandidates(item, searchResults, o);
    if candidates.Err? {
      return Err(candidates.message);
    }
    var cs := candidates.value;
    var a := new Candidate[|cs|](k requires 0 <= k < |cs| => cs[k]);
    assert a[..] == cs;
    var ranked := ScoreCandidates(item.budgetAllocation, a, o.deadlineDays,
                                  o.scoreLlm(ScoringPrompt(item, cs, otherTopPicks)), o.explain(item));
    if ranked.Err? {
      return Err(ranked.message);
    }
    r := Ok(Outcome(item, searchResults, |cs|, ranked.value));
  }

  /** Steps 2 and 3 of the loop body: selection, classification and both extraction phases. */
  method GatherCandidates(item: SpecItem, searchResults: seq<SearchResult>, o: Oracles) returns (r: Result<seq<Candidate>>)
    ensures r == ItemCandidates(item, searchResults, o)
  {
    var selected := SelectUrls(searchResults, MaxUrlsPerItem);
    var productUrls, catalogUrls := Partition(selected);
    var candidates, reclassified := PhaseA(productUrls, item, o);
    r := PhaseB(candidates, catalogUrls + reclassified, item, o);
  }

  /** Phase B: harvest links from the catalog pages, keep the new ones, extract them. */
  method PhaseB(candidates: seq<Candidate>, catalogUrls: seq<SearchResult>, item: SpecItem, o: Oracles)
    returns (r: Result<seq<Candidate>>)
    ensures r == PhaseBOutcome(candidates, catalogUrls, item, o)
  {
    var allProductLinks := CollectLinks(catalogUrls);
    if allProductLinks.Err? {
      return Err(allProductLinks.message);
    }
    var seenUrls := KeySet(candidates, ProductUrl);
    var uniqueLinks := Dedup(allProductLinks.value, LinkUrl, seenUrls);
    var linksToExtract := Take(uniqueLinks, MaxCatalogExtractUrls);
    var extracted := ExtractLinks(linksToExtract, item, o);
    r := Ok(candidates + extracted);
  }

  /** The bulk extract of the catalog-derived links; a failing call is caught and yields nothing. */
  method ExtractLinks(links: seq<Link>, item: SpecItem, o: Oracles) returns (extracted: seq<Candidate>)
    ensures extracted == LinkCandidates(links, item, o)
  {
    extracted := [];
    if |links| > 0 {
      var extractResponse := o.extractPages(LinkUrls(links));
      if extractResponse.Some? {
        extracted := ExtractAll(extractResponse.value, item, o);
      }
    }
  }

  // ---------------------------------------------------------------------------
  // The whole run

  /** The state of `runPipeline` after some items: the item results, the rows persisted,
      the top picks, and the error that ended the loop, if any. */
  datatype Progress = Progress(results: seq<ItemRunResult>, rows: seq<RunRow>, picks: seq<TopPick>,
                               failure: Option<string>)

  function PickCandidates(picks: seq<TopPick>): (cs: seq<Candidate>)
    ensures |cs| == |picks| && forall i :: 0 <= i < |picks| ==> cs[i] == picks[i].candidate
    decreases |picks|
  {
    if picks == [] then [] else PickCandidates(picks[..|picks| - 1]) + [picks[|picks| - 1].candidate]
  }

  /** The top pick an item result contributes: its first candidate, if it has one. */
  function PickOf(r: ItemRunResult): seq<TopPick> {
    if |r.candidates| > 0 then [TopPick(r.itemName, r.candidates[0])] else []
  }

  /** The processing of one item given the top picks so far: `ProcessItemSpec` for
      fixed oracles. */
  type Processor = (SpecItem, seq<Candidate>) -> Result<ItemOutcome>

  function ProcessorOf(o: Oracles): Processor {
    (item, otherTopPicks) => ProcessItemSpec(item, otherTopPicks, o)
  }

  /** `out` is an outcome for `item`: same id, name and query, version 1, at most three
      ranked candidates, the row holding the result's ranking. */
  predicate OutcomeFor(item: SpecItem, out: ItemOutcome) {
    && out.result.itemId == item.id && out.result.itemName == item.name
    && out.result.query == item.name && |out.result.candidates| <= 3
    && out.row.itemId == item.id && out.row.version == 1 && out.row.query == item.name
    && out.row.ranked == out.result.candidates
  }

  ghost predicate Shaped(process: Processor) {
    forall item, otherTopPicks :: process(item, otherTopPicks).Ok? ==> OutcomeFor(item, process(item, otherTopPicks).value)
  }

  /** One loop iteration: process `item` and record it, or record the error. */
  function Step(p: Progress, item: SpecItem, process: Processor): Progress {
    match process(item, PickCandidates(p.picks))
    case Err(m) => p.(failure := Some(m))
    case Ok(out) => Progress(p.results + [out.result], p.rows + [out.row], p.picks + PickOf(out.result), None)
  }

  /** The loop of `runPipeline` over `items`; the first error stops it. */
  function RunItems(items: seq<SpecItem>, process: Processor): Progress
    decreases |items|
  {
    if items == [] then Progress([], [], [], None)
    else
      var p := RunItems(items[..|items| - 1], process);
      if p.failure.Some? then p else Step(p, items[|items| - 1], process)
  }

  /** The top picks of a list of item results, in order. */
  function TopPicksOf(results: seq<ItemRunResult>): seq<TopPick>
    decreases |results|
  {
    if results == [] then [] else TopPicksOf(results[..|results| - 1]) + PickOf(results[|results| - 1])
  }

  /** The result with its first candidate replaced by `c`. */
  function SetFirst(r: ItemRunResult, c: Candidate): ItemRunResult
    requires |r.candidates| > 0
  {
    r.(candidates := [c] + r.candidates[1..])
  }

  /** The item results after the coherence pass: the adjusted first candidate of each
      result replaces the old one, since a top pick and its result share one object. */
  function Recohere(results: seq<ItemRunResult>, adjustments: seq<Adjustment>): (rs: seq<ItemRunResult>)
    ensures |rs| == |results|
    decreases |results|
  {
    if results == [] then []
    else
      var r := results[|results| - 1];
      Recohere(results[..|results| - 1], adjustments)
      + [if |r.candidates| > 0 then SetFirst(r, AdjustCandidate(r.candidates[0], adjustments)) else r]
  }

  /** The outcome of a run: the item results or the error, and the rows persisted either way. */
  datatype RunOutcome = RunOutcome(result: Result<seq<ItemRunResult>>, rows: seq<RunRow>)

  /** `runPipeline`: at most `maxItems` items (eight by default), then, with more than
      one top pick, the coherence pass, whose failure is not caught. */
  function Pipeline(spec: ShoppingSpec, maxItems: Option<int>, o: Oracles): RunOutcome {
    var p := RunItems(ItemsToProcess(spec.items, maxItems), ProcessorOf(o));
    if p.failure.Some? then RunOutcome(Err(p.failure.value), p.rows)
    else RunOutcome(Coherent(p.results, p.picks, o), p.rows)
  }

  /** The results after the coherence pass over `picks`, which runs only for more than
      one pick. */
  function Coherent(results: seq<ItemRunResult>, picks: seq<TopPick>, o: Oracles): Result<seq<ItemRunResult>> {
    if |picks| <= 1 then Ok(results)
    else match o.coherence(picks)
      case None => Err("coherence failed")
      case Some(adjustments) => Ok(Recohere(results, adjustments))
  }

  /** The results with the picks written back into their first candidates: the k-th pick
      belongs to the k-th result that has a candidate. */
  function WithPicks(results: seq<ItemRunResult>, picks: seq<TopPick>): seq<ItemRunResult>
    requires |picks| == |TopPicksOf(results)|
    decreases |results|
  {
    if results == [] then []
    else
      var r := results[|results| - 1];
      if |r.candidates| > 0 then
        WithPicks(results[..|results| - 1], picks[..|picks| - 1])
        + [SetFirst(r, picks[|picks| - 1].candidate)]
      else WithPicks(results[..|results| - 1], picks) + [r]
  }

  function AdjustPicks(picks: seq<TopPick>, adjustments: seq<Adjustment>): (ps: seq<TopPick>)
    ensures |ps| == |picks| && forall i :: 0 <= i < |picks| ==> ps[i] == AdjustPick(picks[i], adjustments)
  {
    seq(|picks|, i requires 0 <= i < |picks| => AdjustPick(picks[i], adjustments))
  }

  /** Writing the adjusted picks back into the results they came from is the same as
      adjusting the first candidate of every result that has one. */
  lemma {:induction false} AliasAgree(results: seq<ItemRunResult>, adjustments: seq<Adjustment>)
    ensures |AdjustPicks(TopPicksOf(results), adjustments)| == |TopPicksOf(results)|
    ensures WithPicks(results, AdjustPicks(TopPicksOf(results), adjustments)) == Recohere(results, adjustments)
    decreases |results|
  {
    if results != [] {
      var init := results[..|results| - 1];
      var r := results[|results| - 1];
      var ps := AdjustPicks(TopPicksOf(results), adjustments);
      AliasAgree(init, adjustments);
      if |r.candidates| > 0 {
        assert TopPicksOf(results) == TopPicksOf(init) + [TopPick(r.itemName, r.candidates[0])];
        assert ps[..|ps| - 1] == AdjustPicks(TopPicksOf(init), adjustments);
        assert ps[|ps| - 1].candidate == AdjustCandidate(r.candidates[0], adjustments);
        assert WithPicks(results, ps) == WithPicks(init, ps[..|ps| - 1]) + [SetFirst(r, ps[|ps| - 1].candidate)];
      } else {
        assert TopPicksOf(results) == TopPicksOf(init);
        assert WithPicks(results, ps) == WithPicks(init, ps) + [r];
      }
    }
  }


  /** Writing the unchanged picks back changes nothing. */
  lemma {:induction false} WithOwnPicks(results: seq<ItemRunResult>)
    ensures WithPicks(results, TopPicksOf(results)) == results
    decreases |results|
  {
    if results != [] {
      var init := results[..|results| - 1];
      var r := results[|results| - 1];
      var tp := TopPicksOf(results);
      WithOwnPicks(init);
      assert results == init + [r];
      if |r.candidates| > 0 {
        assert tp == TopPicksOf(init) + [TopPick(r.itemName, r.candidates[0])];
        assert tp[..|tp| - 1] == TopPicksOf(init);
        assert r.candidates == [r.candidates[0]] + r.candidates[1..];
        assert SetFirst(r, tp[|tp| - 1].candidate) == r;
        assert WithPicks(results, tp) == WithPicks(init, tp[..|tp| - 1]) + [SetFirst(r, tp[|tp| - 1].candidate)];
      } else {
        assert tp == TopPicksOf(init);
        assert WithPicks(results, tp) == WithPicks(init, tp) + [r];
      }
    }
  }


  /** A processed item yields a result and a row for that item: same id, name and query,
      version 1, at most three ranked candidates, the row holding the result's ranking. */
  lemma ProcessItemShape(item: SpecItem, otherTopPicks: seq<Candidate>, o: Oracles)
    ensures var r := ProcessItemSpec(item, otherTopPicks, o);
      r.Ok? ==> OutcomeFor(item, r.value)
  {
    var r := ProcessItemSpec(item, otherTopPicks, o);
    if r.Ok? {
      var searchResults := o.search(item).value;
      var candidates := ItemCandidates(item, searchResults, o).value;
      var llm := o.scoreLlm(ScoringPrompt(item, candidates, otherTopPicks));
      var ranked := ScoreOutcome(candidates, item.budgetAllocation, o.deadlineDays, llm, o.explain(item)).value;
      assert r.value == Outcome(item, searchResults, |candidates|, ranked);
    }
  }

  lemma ProcessorShaped(o: Oracles)
    ensures Shaped(ProcessorOf(o))
  {
    forall item, otherTopPicks {
      ProcessItemShape(item, otherTopPicks, o);
    }
  }

  /** After the first error the loop has stopped: the remaining items change nothing. */
  lemma {:induction false} RunItemsFailed(items: seq<SpecItem>, n: nat, process: Processor)
    requires n <= |items| && RunItems(items[..n], process).failure.Some?
    ensures RunItems(items, process) == RunItems(items[..n], process)
    decreases |items| - n
  {
    if n < |items| {
      assert items[..n + 1][..n] == items[..n];
      RunItemsFailed(items, n + 1, process);
    } else {
      assert items[..n] == items;
    }
  }

  /** One more item: after a failure nothing changes; otherwise either the loop records
      the item's error and keeps what it had, or it appends one result and one row for
      that item and the result's top pick. */
  lemma RunItemsStep(items: seq<SpecItem>, process: Processor)
    requires items != [] && Shaped(process)
    ensures var p := RunItems(items[..|items| - 1], process);
      var q := RunItems(items, process);
      var item := items[|items| - 1];
      && (p.failure.Some? ==> q == p)
      && (q.failure.Some? ==> q.results == p.results && q.rows == p.rows && q.picks == p.picks)
      && (q.failure.None? ==>
            && p.failure.None?
            && q.results == p.results + [q.results[|q.results| - 1]] && q.rows == p.rows + [q.rows[|q.rows| - 1]]
            && q.picks == p.picks + PickOf(q.results[|q.results| - 1])
            && OutcomeFor(item, ItemOutcome(q.results[|q.results| - 1], q.rows[|q.rows| - 1])))
  {
    var p := RunItems(items[..|items| - 1], process);
    var item := items[|items| - 1];
    if p.failure.None? {
      var res := process(item, PickCandidates(p.picks));
      assert res.Ok? ==> OutcomeFor(item, res.value);
    }
  }


  /** The loop keeps one result and one row per processed item, in item order, each for
      its item; it processes every item unless one fails; and the top picks are the
      first candidates of the results that have any. */
  lemma {:induction false} RunItemsFacts(items: seq<SpecItem>, process: Processor)
    requires Shaped(process)
    ensures var p := RunItems(items, process);
      && |p.results| == |p.rows| <= |items|
      && (p.failure.None? ==> |p.results| == |items|)
      && (forall i :: 0 <= i < |p.results| ==>
            && p.results[i].itemId == items[i].id && p.results[i].itemName == items[i].name
            && p.results[i].query == items[i].name && |p.results[i].candidates| <= 3
            && p.rows[i].itemId == items[i].id && p.rows[i].version == 1
            && p.rows[i].ranked == p.results[i].candidates)
      && p.picks == TopPicksOf(p.results)
    decreases |items|
  {
    if items != [] {
      var init := items[..|items| - 1];
      RunItemsFacts(init, process);
      RunItemsStep(items, process);
      var p := RunItems(init, process);
      var q := RunItems(items, process);
      if q.failure.None? {
        assert q.results[..|q.results| - 1] == p.results;
        forall i | 0 <= i < |q.results|
          ensures q.results[i].itemId == items[i].id && q.results[i].itemName == items[i].name
          ensures q.results[i].query == items[i].name && |q.results[i].candidates| <= 3
          ensures q.rows[i].itemId == items[i].id && q.rows[i].version == 1
          ensures q.rows[i].ranked == q.results[i].candidates
        {
          if i < |p.results| {
            assert q.results[i] == p.results[i] && q.rows[i] == p.rows[i] && items[i] == init[i];
          }
        }
      }
    }
  }

  /** A successful item extends the results, the rows and, when it has a candidate, the
      top picks by the item's name and first candidate. */
  lemma StepOk(p: Progress, item: SpecItem, o: Oracles, out: ItemOutcome)
    requires ProcessItemSpec(item, PickCandidates(p.picks), o) == Ok(out)
    ensures Step(p, item, ProcessorOf(o)) == Progress(p.results + [out.result], p.rows + [out.row],
      p.picks + (if |out.result.candidates| > 0 then [TopPick(item.name, out.result.candidates[0])] else []), None)
  {
    ProcessItemShape(item, PickCandidates(p.picks), o);
  }

  /** `RunItems` over one more item of `items`. */
  lemma RunItemsPrefix(items: seq<SpecItem>, i: nat, process: Processor)
    requires i < |items|
    ensures var p := RunItems(items[..i], process);
      RunItems(items[..i + 1], process) == if p.failure.Some? then p else Step(p, items[i], process)
  {
    assert items[..i + 1][..i] == items[..i];
  }

  /** The loop of `runPipeline` over the items to process. */
  method ProcessItems(items: seq<SpecItem>, o: Oracles) returns (p: Progress)
    ensures p == RunItems(items, ProcessorOf(o))
  {
    var results: seq<ItemRunResult> := [];
    var rows: seq<RunRow> := [];
    var allTopPicks: seq<TopPick> := [];
    for i := 0 to |items|
      invariant RunItems(items[..i], ProcessorOf(o)) == Progress(results, rows, allTopPicks, None)
    {
      var item := items[i];
      RunItemsPrefix(items, i, ProcessorOf(o));
      var out := ProcessItem(item, PickCandidates(allTopPicks), o);
      if out.Err? {
        assert RunItems(items[..i + 1], ProcessorOf(o)) == Progress(results, rows, allTopPicks, Some(out.message));
        RunItemsFailed(items, i + 1, ProcessorOf(o));
        return Progress(results, rows, allTopPicks, Some(out.message));
      }
      StepOk(Progress(results, rows, allTopPicks, None), item, o, out.value);
      var ranked := out.value.result.candidates;
      if |ranked| > 0 {
        allTopPicks := allTopPicks + [TopPick(item.name, ranked[0])];
      }
      rows := rows + [out.value.row];
      results := results + [out.value.result];
    }
    assert items[..|items|] == items;
    p := Progress(results, rows, allTopPicks, None);
  }

  /** `runPipeline`: the item loop, then the coherence pass. */
  method RunPipeline(spec: ShoppingSpec, maxItems: Option<int>, o: Oracles) returns (r: RunOutcome)
    requires o.deadlineDays.Some? <==> Truthy(spec.deliveryDeadline)
    ensures r == Pipeline(spec, maxItems, o)
  {
    var items := ItemsToProcess(spec.items, maxItems);
    var p := ProcessItems(items, o);
    if p.failure.Some? {
      return RunOutcome(Err(p.failure.value), p.rows);
    }
    ProcessorShaped(o);
    RunItemsFacts(items, ProcessorOf(o));
    var results := CoherencePass(p.results, p.picks, o);
    r := RunOutcome(results, p.rows);
  }

  /** The coherence pass over the top picks, whose adjustments reach the results through
      the candidates a pick and its result share. */
  method CoherencePass(results: seq<ItemRunResult>, allTopPicks: seq<TopPick>, o: Oracles)
    returns (r: Result<seq<ItemRunResult>>)
    requires allTopPicks == TopPicksOf(results)
    ensures r == Coherent(results, allTopPicks, o)
  {
    if |allTopPicks| <= 1 {
      return Ok(results);
    }
    var adjustments := o.coherence(allTopPicks);
    var picks := new TopPick[|allTopPicks|](k requires 0 <= k < |allTopPicks| => allTopPicks[k]);
    var ok := RunCoherencePass(picks, adjustments);
    if !ok {
      return Err("coherence failed");
    }
    // Each pick's candidate is the first candidate of its result: write them back.
    AliasAgree(results, adjustments.value);
    assert picks[..] == AdjustPicks(allTopPicks, adjustments.value);
    r := Ok(WithPicks(results, picks[..]));
  }



  /** The coherence pass changes only the scores of each result's first candidate. */
  lemma {:induction false} RecohereFacts(results: seq<ItemRunResult>, adjustments: seq<Adjustment>)
    ensures var rs := Recohere(results, adjustments);
      forall i :: 0 <= i < |results| ==>
        && rs[i].(candidates := results[i].candidates) == results[i]
        && |rs[i].candidates| == |results[i].candidates|
        && (|results[i].candidates| > 0 ==>
              && rs[i].candidates[1..] == results[i].candidates[1..]
              && rs[i].candidates[0] == AdjustCandidate(results[i].candidates[0], adjustments))
    decreases |results|
  {
    if results != [] {
      RecohereFacts(results[..|results| - 1], adjustments);
    }
  }

  /** The run's outcome: an item error ends it with that error; otherwise the coherence
      model is consulted exactly when more than one item has a candidate, its failure
      ends the run, and its reply only rescores the first candidate of each result.
      The persisted rows are written before the coherence pass, so each row keeps the
      ranking its item had before it. */
  lemma PipelineFacts(spec: ShoppingSpec, maxItems: Option<int>, o: Oracles)
    ensures var items := ItemsToProcess(spec.items, maxItems);
      var p := RunItems(items, ProcessorOf(o));
      var out := Pipeline(spec, maxItems, o);
      && out.rows == p.rows
      && (p.failure.Some? ==> out.result == Err(p.failure.value))
      && (p.failure.None? ==>
            (out.result.Err? <==> |TopPicksOf(p.results)| > 1 && o.coherence(TopPicksOf(p.results)).None?))
      && (out.result.Ok? ==>
            && |out.result.value| == |items| == |out.rows|
            && forall i :: 0 <= i < |items| ==>
                 && out.result.value[i].itemId == items[i].id == out.rows[i].itemId
                 && |out.result.value[i].candidates| == |out.rows[i].ranked| <= 3
                 && (|out.rows[i].ranked| > 0 ==> out.result.value[i].candidates[1..] == out.rows[i].ranked[1..])
                 && (|TopPicksOf(p.results)| <= 1 ==> out.result.value[i].candidates == out.rows[i].ranked))
  {
    var items := ItemsToProcess(spec.items, maxItems);
    var p := RunItems(items, ProcessorOf(o));
    ProcessorShaped(o);
    RunItemsFacts(items, ProcessorOf(o));
    if p.failure.None? && |p.picks| > 1 && o.coherence(p.picks).Some? {
      RecohereFacts(p.results, o.coherence(p.picks).value);
    }
  }
}
