/** The cart store: one active cart per session, whose rows (one per spec item) are
    kept in the order they were added. Adding replaces an item's row, removing deletes
    it, swapping changes its candidate, toggling flips its lock; the summary totals the
    prices and reports the last delivery estimate; re-optimisation proposes cheaper
    candidates from each item's latest run when the cart is over budget.
    The SQL tables become the `carts` map; cart ids for new carts are parameters. */
module Cart {
  import opened Types
  import opened Text
  import opened Seqs
  import opened Sorting

  /** An active cart: its id and its rows in added order. */
  datatype StoredCart = StoredCart(id: string, entries: seq<CartEntry>)

  function EntryItem(e: CartEntry): string { e.itemId }

  function EntryPrice(e: CartEntry): real { e.candidate.price }

  // ---------------------------------------------------------------------------
  // Row operations

  /** The rows of one item, in order. */
  function RowsOf(es: seq<CartEntry>, itemId: string): seq<CartEntry>
    decreases |es|
  {
    if es == [] then []
    else (if es[0].itemId == itemId then [es[0]] else []) + RowsOf(es[1..], itemId)
  }

  /** `DELETE FROM cart_items WHERE item_id = itemId`. */
  function Without(es: seq<CartEntry>, itemId: string): seq<CartEntry>
    decreases |es|
  {
    if es == [] then []
    else (if es[0].itemId == itemId then [] else [es[0]]) + Without(es[1..], itemId)
  }

  /** `UPDATE cart_items SET candidate_id = …, candidate_snapshot_json = … WHERE item_id = itemId`. */
  function Swapped(es: seq<CartEntry>, itemId: string, candidateId: string, snapshot: Candidate): seq<CartEntry>
    decreases |es|
  {
    if es == [] then []
    else
      [if es[0].itemId == itemId then es[0].(candidateId := candidateId, candidate := snapshot) else es[0]]
      + Swapped(es[1..], itemId, candidateId, snapshot)
  }

  /** `UPDATE cart_items SET locked = NOT locked WHERE item_id = itemId`. */
  function Toggled(es: seq<CartEntry>, itemId: string): seq<CartEntry>
    decreases |es|
  {
    if es == [] then []
    else [if es[0].itemId == itemId then es[0].(locked := !es[0].locked) else es[0]] + Toggled(es[1..], itemId)
  }

  /** The cart after `addToCart`: the item's old rows deleted, then a new unlocked row
      inserted, which is the latest added. */
  function Added(es: seq<CartEntry>, itemId: string, candidateId: string, snapshot: Candidate): seq<CartEntry> {
    Without(es, itemId) + [CartEntry(itemId, candidateId, snapshot, false)]
  }

  lemma {:induction false} RowsOfAppend(a: seq<CartEntry>, b: seq<CartEntry>, itemId: string)
    ensures RowsOf(a + b, itemId) == RowsOf(a, itemId) + RowsOf(b, itemId)
    decreases |a|
  {
    if a != [] {
      assert (a + b)[0] == a[0];
      assert (a + b)[1..] == a[1..] + b;
      RowsOfAppend(a[1..], b, itemId);
    } else {
      assert a + b == b;
    }
  }

  /** Deleting an item's rows leaves none of them and keeps every other item's rows,
      in order. */
  lemma {:induction false} WithoutRows(es: seq<CartEntry>, itemId: string, other: string)
    ensures RowsOf(Without(es, itemId), itemId) == []
    ensures other != itemId ==> RowsOf(Without(es, itemId), other) == RowsOf(es, other)
    decreases |es|
  {
    if es != [] {
      WithoutRows(es[1..], itemId, other);
      var head := if es[0].itemId == itemId then [] else [es[0]];
      RowsOfAppend(head, Without(es[1..], itemId), itemId);
      RowsOfAppend(head, Without(es[1..], itemId), other);
    }
  }

  /** After `addToCart` the item has exactly one row, the new unlocked one, and it is the
      last row; every other item keeps its rows, in order. */
  lemma AddedFacts(es: seq<CartEntry>, itemId: string, candidateId: string, snapshot: Candidate, other: string)
    ensures RowsOf(Added(es, itemId, candidateId, snapshot), itemId) == [CartEntry(itemId, candidateId, snapshot, false)]
    ensures other != itemId ==> RowsOf(Added(es, itemId, candidateId, snapshot), other) == RowsOf(es, other)
    ensures Added(es, itemId, candidateId, snapshot)[|Added(es, itemId, candidateId, snapshot)| - 1].itemId == itemId
  {
    var row := CartEntry(itemId, candidateId, snapshot, false);
    WithoutRows(es, itemId, other);
    RowsOfAppend(Without(es, itemId), [row], itemId);
    RowsOfAppend(Without(es, itemId), [row], other);
  }

  /** Swapping changes only the candidate id and snapshot of the item's rows: the rows
      stay where they are, keep their lock, and no row is created. */
  lemma {:induction false} SwappedFacts(es: seq<CartEntry>, itemId: string, candidateId: string, snapshot: Candidate)
    ensures |Swapped(es, itemId, candidateId, snapshot)| == |es|
    ensures forall i :: 0 <= i < |es| ==>
      var r := Swapped(es, itemId, candidateId, snapshot)[i];
      && r.itemId == es[i].itemId && r.locked == es[i].locked
      && (es[i].itemId == itemId ==> r.candidateId == candidateId && r.candidate == snapshot)
      && (es[i].itemId != itemId ==> r == es[i])
    decreases |es|
  {
    if es != [] {
      SwappedFacts(es[1..], itemId, candidateId, snapshot);
      var r := Swapped(es, itemId, candidateId, snapshot);
      forall i | 1 <= i < |es| ensures r[i] == Swapped(es[1..], itemId, candidateId, snapshot)[i - 1] && es[i] == es[1..][i - 1] {
      }
    }
  }

  /** Toggling flips the lock of the item's rows and touches nothing else. */
  lemma {:induction false} ToggledFacts(es: seq<CartEntry>, itemId: string)
    ensures |Toggled(es, itemId)| == |es|
    ensures forall i :: 0 <= i < |es| ==>
      var r := Toggled(es, itemId)[i];
      && (es[i].itemId == itemId ==> r == es[i].(locked := !es[i].locked))
      && (es[i].itemId != itemId ==> r == es[i])
    decreases |es|
  {
    if es != [] {
      ToggledFacts(es[1..], itemId);
      var r := Toggled(es, itemId);
      forall i | 1 <= i < |es| ensures r[i] == Toggled(es[1..], itemId)[i - 1] && es[i] == es[1..][i - 1] {
      }
    }
  }

  /** Toggling twice restores the cart. */
  lemma {:induction false} ToggleTwice(es: seq<CartEntry>, itemId: string)
    ensures Toggled(Toggled(es, itemId), itemId) == es
    decreases |es|
  {
    if es != [] {
      ToggleTwice(es[1..], itemId);
      assert Toggled(es, itemId)[1..] == Toggled(es[1..], itemId);
    }
  }

  /** The store keeps at most one row per item: `addToCart` deletes before inserting. */
  predicate OneRowPerItem(es: seq<CartEntry>) {
    UniqueKeys(es, EntryItem)
  }

  lemma WithoutSound(es: seq<CartEntry>, itemId: string)
    ensures forall e :: e in Without(es, itemId) <==> e in es && e.itemId != itemId
    ensures OneRowPerItem(es) ==> OneRowPerItem(Without(es, itemId))
  {
    WithoutMembers(es, itemId);
    if OneRowPerItem(es) {
      WithoutUnique(es, itemId);
    }
  }

  lemma {:induction false} WithoutMembers(es: seq<CartEntry>, itemId: string)
    ensures forall e :: e in Without(es, itemId) <==> e in es && e.itemId != itemId
    decreases |es|
  {
    if es != [] {
      WithoutMembers(es[1..], itemId);
    }
  }

  lemma {:induction false} WithoutUnique(es: seq<CartEntry>, itemId: string)
    requires OneRowPerItem(es)
    ensures OneRowPerItem(Without(es, itemId))
    decreases |es|
  {
    if es != [] {
      TailUnique(es);
      WithoutUnique(es[1..], itemId);
      if es[0].itemId != itemId {
        WithoutMembers(es[1..], itemId);
        ConsUnique(es[0], Without(es[1..], itemId), es[1..]);
      }
    }
  }

  /** The rows after the first of a cart with one row per item. */
  lemma TailUnique(es: seq<CartEntry>)
    requires es != [] && OneRowPerItem(es)
    ensures OneRowPerItem(es[1..])
    ensures forall e :: e in es[1..] ==> e.itemId != es[0].itemId
  {
    forall i, j | 0 <= i < j < |es[1..]| ensures es[1..][i].itemId != es[1..][j].itemId {
      assert es[1..][i] == es[i + 1] && es[1..][j] == es[j + 1];
    }
    forall e | e in es[1..] ensures e.itemId != es[0].itemId {
      var k :| 0 <= k < |es[1..]| && es[1..][k] == e;
      assert es[k + 1] == e;
    }
  }

  /** A row put in front of rows for other items. */
  lemma ConsUnique(x: CartEntry, rest: seq<CartEntry>, others: seq<CartEntry>)
    requires OneRowPerItem(rest)
    requires forall e :: e in rest ==> e in others
    requires forall e :: e in others ==> e.itemId != x.itemId
    ensures OneRowPerItem([x] + rest)
  {
    var w := [x] + rest;
    forall i, j | 0 <= i < j < |w| ensures w[i].itemId != w[j].itemId {
      if i == 0 {
        assert w[j] in rest;
      } else {
        assert w[i] == rest[i - 1] && w[j] == rest[j - 1];
      }
    }
  }

  /** Every operation keeps one row per item. */
  lemma OperationsKeepOneRow(es: seq<CartEntry>, itemId: string, candidateId: string, snapshot: Candidate)
    requires OneRowPerItem(es)
    ensures OneRowPerItem(Added(es, itemId, candidateId, snapshot))
    ensures OneRowPerItem(Without(es, itemId))
    ensures OneRowPerItem(Swapped(es, itemId, candidateId, snapshot))
    ensures OneRowPerItem(Toggled(es, itemId))
  {
    WithoutSound(es, itemId);
    var w := Without(es, itemId);
    var a := Added(es, itemId, candidateId, snapshot);
    forall i, j | 0 <= i < j < |a| ensures a[i].itemId != a[j].itemId {
      if j == |a| - 1 {
        assert a[i] == w[i] && w[i] in w;
      } else {
        assert a[i] == w[i] && a[j] == w[j];
      }
    }
    SwappedFacts(es, itemId, candidateId, snapshot);
    ToggledFacts(es, itemId);
  }

  // ---------------------------------------------------------------------------
  // Summary

  /** `items.reduce((sum, item) => sum + item.candidate.price, 0)`. */
  function PriceSum(es: seq<CartEntry>): real
    decreases |es|
  {
    if es == [] then 0.0 else PriceSum(es[..|es| - 1]) + es[|es| - 1].candidate.price
  }

  /** The estimate of the last row, in added order, with a non-empty estimate. */
  function LatestDelivery(es: seq<CartEntry>): Option<string>
    decreases |es|
  {
    if es == [] then None
    else if Truthy(es[|es| - 1].candidate.deliveryEstimate) then es[|es| - 1].candidate.deliveryEstimate
    else LatestDelivery(es[..|es| - 1])
  }

  /** No estimate exactly when no row has a non-empty one; otherwise the estimate of a
      row with a non-empty one after which no row has one. */
  lemma {:induction false} LatestDeliveryFacts(es: seq<CartEntry>)
    ensures LatestDelivery(es).None? <==> forall i :: 0 <= i < |es| ==> !Truthy(es[i].candidate.deliveryEstimate)
    ensures LatestDelivery(es).Some? ==>
      exists i :: 0 <= i < |es| && es[i].candidate.deliveryEstimate == LatestDelivery(es)
        && Truthy(es[i].candidate.deliveryEstimate)
        && forall j :: i < j < |es| ==> !Truthy(es[j].candidate.deliveryEstimate)
    decreases |es|
  {
    if es != [] {
      var init := es[..|es| - 1];
      LatestDeliveryFacts(init);
      assert forall i :: 0 <= i < |init| ==> init[i] == es[i];
    }
  }

  /** The summary of a cart: with no active cart an empty one with id "", otherwise the
      rows, the total rounded to cents, no budget figure (the caller sets it) and the
      latest delivery estimate. */
  function SummaryOf(sessionId: string, cart: Option<StoredCart>): CartState {
    match cart
    case None => CartState("", sessionId, Active, [], 0.0, 0.0, None)
    case Some(c) => CartState(c.id, sessionId, Active, c.entries, RoundCents(PriceSum(c.entries)), 0.0, LatestDelivery(c.entries))
  }

  /** The summary's total is within half a cent of the sum of the row prices and is a
      whole number of cents; with no active cart it is zero with no rows and no estimate. */
  lemma SummaryFacts(sessionId: string, cart: Option<StoredCart>)
    ensures var s := SummaryOf(sessionId, cart);
      && s.sessionId == sessionId && s.budgetRemaining == 0.0
      && (cart.None? ==> s.items == [] && s.totalCost == 0.0 && s.latestDelivery.None? && s.id == "")
      && (cart.Some? ==>
            && s.items == cart.value.entries && s.id == cart.value.id
            && PriceSum(s.items) - 0.005 < s.totalCost <= PriceSum(s.items) + 0.005
            && (s.totalCost * 100.0).Floor as real == s.totalCost * 100.0)
  {
  }

  // ---------------------------------------------------------------------------
  // Re-optimisation

  datatype Suggestion = Suggestion(itemId: string, currentPrice: real, suggestedCandidate: Candidate)

  predicate Unlocked(e: CartEntry) { !e.locked }

  /** `c.price < item.candidate.price && c.id !== item.candidateId` */
  function CheaperThan(e: CartEntry): Candidate -> bool {
    (c: Candidate) => c.price < e.candidate.price && c.id != e.candidateId
  }

  /** The suggestion for one row, from the latest run of its item, if any. */
  function SuggestionFor(e: CartEntry, latestRuns: map<string, seq<Candidate>>): seq<Suggestion> {
    if e.itemId !in latestRuns then []
    else match Find(latestRuns[e.itemId], CheaperThan(e))
      case None => []
      case Some(c) => [Suggestion(e.itemId, e.candidate.price, c)]
  }

  function Suggestions(unlocked: seq<CartEntry>, latestRuns: map<string, seq<Candidate>>): seq<Suggestion>
    decreases |unlocked|
  {
    if unlocked == [] then []
    else Suggestions(unlocked[..|unlocked| - 1], latestRuns) + SuggestionFor(unlocked[|unlocked| - 1], latestRuns)
  }

  /** The unlocked rows, most expensive first (ties in added order). */
  function UnlockedByPrice(es: seq<CartEntry>): seq<CartEntry> {
    SortDesc(Filter(es, Unlocked), EntryPrice)
  }

  /** `reoptimize` on a cart summary: nothing within budget, otherwise one suggestion per
      unlocked row whose item's latest run has a cheaper candidate. `latestRuns` maps an
      item id to the ranked candidates of its latest run. */
  function Reoptimized(budget: real, cart: CartState, latestRuns: map<string, seq<Candidate>>): seq<Suggestion> {
    if budget - cart.totalCost >= 0.0 then [] else Suggestions(UnlockedByPrice(cart.items), latestRuns)
  }

  function SuggestionPrice(s: Suggestion): real { s.currentPrice }

  lemma SuggestionsStep(unlocked: seq<CartEntry>, i: nat, latestRuns: map<string, seq<Candidate>>)
    requires i < |unlocked|
    ensures Suggestions(unlocked[..i + 1], latestRuns) == Suggestions(unlocked[..i], latestRuns) + SuggestionFor(unlocked[i], latestRuns)
  {
    assert unlocked[..i + 1][..i] == unlocked[..i];
  }

  /** Each suggestion belongs to a visited row, and each row gives at most one. */
  lemma {:induction false} SuggestionsFrom(unlocked: seq<CartEntry>, latestRuns: map<string, seq<Candidate>>)
    ensures |Suggestions(unlocked, latestRuns)| <= |unlocked|
    ensures forall s :: s in Suggestions(unlocked, latestRuns) ==>
      exists i :: 0 <= i < |unlocked| && SuggestionFor(unlocked[i], latestRuns) == [s]
    decreases |unlocked|
  {
    if unlocked != [] {
      var init := unlocked[..|unlocked| - 1];
      SuggestionsFrom(init, latestRuns);
      forall s | s in Suggestions(init, latestRuns)
        ensures exists i :: 0 <= i < |unlocked| && SuggestionFor(unlocked[i], latestRuns) == [s]
      {
        var i :| 0 <= i < |init| && SuggestionFor(init[i], latestRuns) == [s];
        assert unlocked[i] == init[i];
      }
    }
  }

  /** Rows visited most expensive first give suggestions in the same order. */
  lemma {:induction false} SuggestionsOrdered(unlocked: seq<CartEntry>, latestRuns: map<string, seq<Candidate>>)
    requires SortedDesc(unlocked, EntryPrice)
    ensures SortedDesc(Suggestions(unlocked, latestRuns), SuggestionPrice)
    decreases |unlocked|
  {
    if unlocked != [] {
      var init := unlocked[..|unlocked| - 1];
      var last := unlocked[|unlocked| - 1];
      assert SortedDesc(init, EntryPrice);
      SuggestionsOrdered(init, latestRuns);
      SuggestionsFrom(init, latestRuns);
      var ri := Suggestions(init, latestRuns);
      var r := Suggestions(unlocked, latestRuns);
      var tail := SuggestionFor(last, latestRuns);
      assert r == ri + tail;
      forall k | 0 <= k < |ri| ensures ri[k].currentPrice >= last.candidate.price {
        var i :| 0 <= i < |init| && SuggestionFor(init[i], latestRuns) == [ri[k]];
        assert unlocked[i] == init[i];
      }
      SuggestionForFacts(last, latestRuns);
      DescSnoc(ri, tail, last.candidate.price);
    }
  }

  /** With one row per item, no item gets two suggestions. */
  lemma {:induction false} SuggestionsUnique(unlocked: seq<CartEntry>, latestRuns: map<string, seq<Candidate>>)
    requires UniqueKeys(unlocked, EntryItem)
    ensures forall i, j :: 0 <= i < j < |Suggestions(unlocked, latestRuns)| ==>
      Suggestions(unlocked, latestRuns)[i].itemId != Suggestions(unlocked, latestRuns)[j].itemId
    decreases |unlocked|
  {
    if unlocked != [] {
      var init := unlocked[..|unlocked| - 1];
      var last := unlocked[|unlocked| - 1];
      assert UniqueKeys(init, EntryItem);
      SuggestionsUnique(init, latestRuns);
      SuggestionsFrom(init, latestRuns);
      var ri := Suggestions(init, latestRuns);
      var r := Suggestions(unlocked, latestRuns);
      var tail := SuggestionFor(last, latestRuns);
      assert r == ri + tail;
      forall k | 0 <= k < |ri| ensures ri[k].itemId != last.itemId {
        var i :| 0 <= i < |init| && SuggestionFor(init[i], latestRuns) == [ri[k]];
        assert unlocked[i] == init[i];
      }
      SuggestionForFacts(last, latestRuns);
      DistinctSnoc(ri, tail, last.itemId);
    }
  }

  /** Appending at most one suggestion for a new item keeps items distinct. */
  lemma DistinctSnoc(ri: seq<Suggestion>, tail: seq<Suggestion>, id: string)
    requires forall i, j :: 0 <= i < j < |ri| ==> ri[i].itemId != ri[j].itemId
    requires forall k :: 0 <= k < |ri| ==> ri[k].itemId != id
    requires |tail| <= 1 && forall s :: s in tail ==> s.itemId == id
    ensures forall a, b :: 0 <= a < b < |ri + tail| ==> (ri + tail)[a].itemId != (ri + tail)[b].itemId
  {
    var r := ri + tail;
    forall a, b | 0 <= a < b < |r| ensures r[a].itemId != r[b].itemId {
      assert r[a] == ri[a];
      if b >= |ri| {
        assert r[b] in tail;
      }
    }
  }

  /** Appending at most one suggestion no dearer than those before keeps the order. */
  lemma DescSnoc(ri: seq<Suggestion>, tail: seq<Suggestion>, price: real)
    requires SortedDesc(ri, SuggestionPrice)
    requires forall k :: 0 <= k < |ri| ==> ri[k].currentPrice >= price
    requires |tail| <= 1 && forall s :: s in tail ==> s.currentPrice == price
    ensures SortedDesc(ri + tail, SuggestionPrice)
  {
    var r := ri + tail;
    forall a, b | 0 <= a < b < |r| ensures r[a].currentPrice >= r[b].currentPrice {
      assert r[a] == ri[a];
      if b >= |ri| {
        assert r[b] in tail;
      } else {
        assert r[b] == ri[b];
      }
    }
  }

  /** A suggestion is strictly cheaper than the row it replaces and comes from that
      item's latest run, and it is the first such candidate there. */
  lemma SuggestionForFacts(e: CartEntry, latestRuns: map<string, seq<Candidate>>)
    ensures |SuggestionFor(e, latestRuns)| <= 1
    ensures SuggestionFor(e, latestRuns) != [] <==>
      e.itemId in latestRuns && exists c :: c in latestRuns[e.itemId] && c.price < e.candidate.price && c.id != e.candidateId
    ensures forall s :: s in SuggestionFor(e, latestRuns) ==>
      && s.itemId == e.itemId && s.currentPrice == e.candidate.price
      && s.suggestedCandidate.price < s.currentPrice && s.suggestedCandidate.id != e.candidateId
      && exists i :: 0 <= i < |latestRuns[e.itemId]| && latestRuns[e.itemId][i] == s.suggestedCandidate
           && forall j :: 0 <= j < i ==> !CheaperThan(e)(latestRuns[e.itemId][j])
  {
    if e.itemId in latestRuns {
      var run := latestRuns[e.itemId];
      if exists c :: c in run && c.price < e.candidate.price && c.id != e.candidateId {
        var c :| c in run && c.price < e.candidate.price && c.id != e.candidateId;
        var k :| 0 <= k < |run| && run[k] == c;
        assert CheaperThan(e)(run[k]);
      }
    }
  }

  /** Within budget there are no suggestions; over budget only unlocked rows are visited,
      most expensive first, each at most once. */
  lemma ReoptimizedFacts(budget: real, cart: CartState, latestRuns: map<string, seq<Candidate>>)
    ensures budget - cart.totalCost >= 0.0 ==> Reoptimized(budget, cart, latestRuns) == []
    ensures var unlocked := UnlockedByPrice(cart.items);
      && multiset(unlocked) == multiset(Filter(cart.items, Unlocked))
      && SortedDesc(unlocked, EntryPrice)
      && (forall e :: e in unlocked ==> e in cart.items && !e.locked)
    ensures SortedDesc(Reoptimized(budget, cart, latestRuns), SuggestionPrice)
  {
    var f := Filter(cart.items, Unlocked);
    SortDescFacts(f, EntryPrice);
    FilterSound(cart.items, Unlocked);
    forall e | e in UnlockedByPrice(cart.items) ensures e in f {
      assert e in multiset(UnlockedByPrice(cart.items));
    }
    SuggestionsOrdered(UnlockedByPrice(cart.items), latestRuns);
  }

  // ---------------------------------------------------------------------------
  // The store

  class CartStore {
    /** The active cart of each session. */
    var carts: map<string, StoredCart>

    constructor()
      ensures carts == map[]
    {
      carts := map[];
    }

    function ActiveCart(sessionId: string): Option<StoredCart>
      reads this
    {
      if sessionId in carts then Some(carts[sessionId]) else None
    }

    /** `getCartSummary`. */
    function Summary(sessionId: string): CartState
      reads this
    {
      SummaryOf(sessionId, ActiveCart(sessionId))
    }

    /** Every active cart keeps one row per item. */
    predicate Valid()
      reads this
    {
      forall s :: s in carts ==> OneRowPerItem(carts[s].entries)
    }

    /** `getOrCreateCart`: the session's active cart, created empty with `newCartId` when
        it has none. */
    method GetOrCreateCart(sessionId: string, newCartId: string) returns (cart: StoredCart)
      modifies this
      ensures sessionId in old(carts) ==> carts == old(carts) && cart == old(carts)[sessionId]
      ensures sessionId !in old(carts) ==> cart == StoredCart(newCartId, []) && carts == old(carts)[sessionId := cart]
    {
      if sessionId in carts {
        return carts[sessionId];
      }
      cart := StoredCart(newCartId, []);
      carts := carts[sessionId := cart];
    }

    /** `addToCart`: the item's row is replaced by a new unlocked row with the snapshot. */
    method AddToCart(sessionId: string, itemId: string, candidateId: string, snapshot: Candidate, newCartId: string)
      returns (state: CartState)
      modifies this
      ensures var before := if sessionId in old(carts) then old(carts)[sessionId] else StoredCart(newCartId, []);
        carts == old(carts)[sessionId := StoredCart(before.id, Added(before.entries, itemId, candidateId, snapshot))]
      ensures state == Summary(sessionId)
      ensures old(Valid()) ==> Valid()
    {
      var cart := GetOrCreateCart(sessionId, newCartId);
      if old(Valid()) {
        assert OneRowPerItem(cart.entries);
        OperationsKeepOneRow(cart.entries, itemId, candidateId, snapshot);
      }
      cart := cart.(entries := Without(cart.entries, itemId));
      cart := cart.(entries := cart.entries + [CartEntry(itemId, candidateId, snapshot, false)]);
      carts := carts[sessionId := cart];
      state := GetCartSummary(sessionId);
    }

    /** `removeFromCart`: deletes the item's row; without an active cart nothing changes. */
    method RemoveFromCart(sessionId: string, itemId: string) returns (state: CartState)
      modifies this
      ensures sessionId !in old(carts) ==> carts == old(carts)
      ensures sessionId in old(carts) ==>
        carts == old(carts)[sessionId := old(carts)[sessionId].(entries := Without(old(carts)[sessionId].entries, itemId))]
      ensures state == Summary(sessionId)
      ensures old(Valid()) ==> Valid()
    {
      if sessionId in carts {
        var cart := carts[sessionId];
        if Valid() {
          assert OneRowPerItem(cart.entries);
          WithoutSound(cart.entries, itemId);
        }
        carts := carts[sessionId := cart.(entries := Without(cart.entries, itemId))];
      }
      state := GetCartSummary(sessionId);
    }

    /** `swapInCart`: the item's row takes the new candidate; nothing is created. */
    method SwapInCart(sessionId: string, itemId: string, newCandidateId: string, newSnapshot: Candidate)
      returns (state: CartState)
      modifies this
      ensures sessionId !in old(carts) ==> carts == old(carts)
      ensures sessionId in old(carts) ==>
        carts == old(carts)[sessionId := old(carts)[sessionId].(entries :=
          Swapped(old(carts)[sessionId].entries, itemId, newCandidateId, newSnapshot))]
      ensures state == Summary(sessionId)
      ensures old(Valid()) ==> Valid()
    {
      if sessionId in carts {
        var cart := carts[sessionId];
        if Valid() {
          assert OneRowPerItem(cart.entries);
          OperationsKeepOneRow(cart.entries, itemId, newCandidateId, newSnapshot);
        }
        carts := carts[sessionId := cart.(entries := Swapped(cart.entries, itemId, newCandidateId, newSnapshot))];
      }
      state := GetCartSummary(sessionId);
    }

    /** `toggleLock`: flips the lock of the item's row. */
    method ToggleLock(sessionId: string, itemId: string) returns (state: CartState)
      modifies this
      ensures sessionId !in old(carts) ==> carts == old(carts)
      ensures sessionId in old(carts) ==>
        carts == old(carts)[sessionId := old(carts)[sessionId].(entries := Toggled(old(carts)[sessionId].entries, itemId))]
      ensures state == Summary(sessionId)
      ensures old(Valid()) ==> Valid()
    {
      if sessionId in carts {
        var cart := carts[sessionId];
        if Valid() {
          assert OneRowPerItem(cart.entries);
          ToggledFacts(cart.entries, itemId);
        }
        carts := carts[sessionId := cart.(entries := Toggled(cart.entries, itemId))];
      }
      state := GetCartSummary(sessionId);
    }

    /** The status update of a checkout: the cart with id `cartId` is no longer active,
        so its session's next add starts a new cart. */
    method CheckOut(cartId: string)
      modifies this
      ensures carts == map s | s in old(carts) && old(carts)[s].id != cartId :: old(carts)[s]
      ensures old(Valid()) ==> Valid()
    {
      carts := map s | s in carts && carts[s].id != cartId :: carts[s];
    }

    /** `getCartSummary`, with its loop for the latest delivery estimate. */
    method GetCartSummary(sessionId: string) returns (state: CartState)
      ensures state == Summary(sessionId)
    {
      if sessionId !in carts {
        return CartState("", sessionId, Active, [], 0.0, 0.0, None);
      }
      var cart := carts[sessionId];
      var items := cart.entries;
      var totalCost := PriceSum(items);
      var latestDelivery: Option<string> := None;
      for i := 0 to |items|
        invariant latestDelivery == LatestDelivery(items[..i])
      {
        assert items[..i + 1][..i] == items[..i];
        if Truthy(items[i].candidate.deliveryEstimate) {
          latestDelivery := items[i].candidate.deliveryEstimate;
        }
      }
      assert items[..|items|] == items;
      state := CartState(cart.id, sessionId, Active, items, RoundCents(totalCost), 0.0, latestDelivery);
    }

    /** `reoptimize`: `latestRuns` maps an item id to the ranked candidates of its latest run. */
    method Reoptimize(sessionId: string, budget: real, latestRuns: map<string, seq<Candidate>>)
      returns (suggestions: seq<Suggestion>)
      ensures suggestions == Reoptimized(budget, Summary(sessionId), latestRuns)
    {
      var cart := GetCartSummary(sessionId);
      var budgetRemaining := budget - cart.totalCost;
      if budgetRemaining >= 0.0 {
        return [];
      }
      var unlocked := UnlockedByPrice(cart.items);
      suggestions := [];
      for i := 0 to |unlocked|
        invariant suggestions == Suggestions(unlocked[..i], latestRuns)
      {
        SuggestionsStep(unlocked, i, latestRuns);
        var item := unlocked[i];
        if item.itemId in latestRuns {
          var candidates := latestRuns[item.itemId];
          var cheaper := Find(candidates, CheaperThan(item));
          if cheaper.Some? {
            suggestions := suggestions + [Suggestion(item.itemId, item.candidate.price, cheaper.value)];
          }
        }
      }
      assert unlocked[..|unlocked|] == unlocked;
    }
  }
}
