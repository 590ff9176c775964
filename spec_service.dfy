/** The shopping spec: built from the items the language model extracts from the chat,
    then finalised with a per-item budget allocation; and the refinement of one item from
    user feedback. The model's replies and the generated ids are parameters; a reply of
    `None` stands for a call that threw. */
module SpecService {
  import opened Types
  import opened Text
  import opened Seqs

  /** One entry of the allocation reply; a missing or null percentage is `None`. */
  datatype Allocation = Allocation(name: string, percentage: Option<real>)

  /** One item of the extraction reply. */
  datatype ExtractedItem = ExtractedItem(name: string, constraints: Constraints)

  /** The extraction reply (its preference lists are passed through unchanged and are not modelled). */
  datatype Extraction = Extraction(budget: real, deliveryDeadline: Option<string>, items: seq<ExtractedItem>)

  /** An `items` row as stored. */
  datatype StoredItem = StoredItem(name: string, constraints: Constraints, budgetAllocation: real, locked: bool)

  // ---------------------------------------------------------------------------
  // Budget allocation

  /** The allocation's name and the item's name, lower-cased, contain one another. */
  function Matches(item: SpecItem): Allocation -> bool {
    (a: Allocation) => Contains(Lower(a.name), Lower(item.name)) || Contains(Lower(item.name), Lower(a.name))
  }

  /** `alloc?.percentage ?? 1 / n`, with `alloc` the first matching allocation. */
  function Percentage(item: SpecItem, allocations: seq<Allocation>, n: nat): real
    requires n > 0
  {
    var found: Option<Allocation> := Find(allocations, Matches(item));
    if found.Some? && found.value.percentage.Some? then found.value.percentage.value
    else 1.0 / n as real
  }

  function Allocated(item: SpecItem, budget: real, allocations: seq<Allocation>, n: nat): SpecItem
    requires n > 0
  {
    item.(budgetAllocation := RoundCents(budget * Percentage(item, allocations, n)))
  }

  /** `allocateBudget`: an empty item list is returned as it is (no model call); otherwise
      each item gets `round(budget × percentage × 100) / 100`. */
  function AllocateBudget(spec: ShoppingSpec, allocations: Option<seq<Allocation>>): Result<seq<SpecItem>> {
    var items := spec.items;
    if items == [] then Ok(items)
    else if allocations.None? then Err("allocation failed")
    else Ok(seq(|items|, i requires 0 <= i < |items| => Allocated(items[i], spec.budget, allocations.value, |items|)))
  }

  /** The percentage is that of the first allocation entry whose name matches the item,
      and the even share `1/n` when no entry matches. */
  lemma PercentageFacts(item: SpecItem, allocations: seq<Allocation>, n: nat)
    requires n > 0
    ensures (forall j :: 0 <= j < |allocations| ==> !Matches(item)(allocations[j])) ==>
              Percentage(item, allocations, n) == 1.0 / n as real
    ensures forall j :: 0 <= j < |allocations| && Matches(item)(allocations[j])
                && (forall k :: 0 <= k < j ==> !Matches(item)(allocations[k]))
                && allocations[j].percentage.Some?
              ==> Percentage(item, allocations, n) == allocations[j].percentage.value
  {
    forall j | 0 <= j < |allocations| && Matches(item)(allocations[j])
      && (forall k :: 0 <= k < j ==> !Matches(item)(allocations[k]))
      ensures Find(allocations, Matches(item)) == Some(allocations[j])
    {
      var f := Find(allocations, Matches(item));
      var j' :| 0 <= j' < |allocations| && allocations[j'] == f.value && Matches(item)(allocations[j'])
                && forall k :: 0 <= k < j' ==> !Matches(item)(allocations[k]);
      assert j' == j;
    }
  }

  /** The items keep their length, order and every field but the allocation, and each
      allocation is within half a cent of the budget times the item's percentage. */
  lemma AllocateFacts(spec: ShoppingSpec, allocations: Option<seq<Allocation>>)
    ensures spec.items == [] ==> AllocateBudget(spec, allocations) == Ok(spec.items)
    ensures spec.items != [] && allocations.None? ==> AllocateBudget(spec, allocations).Err?
    ensures var r := AllocateBudget(spec, allocations);
      r.Ok? && spec.items != [] ==>
        var n := |spec.items|;
        && |r.value| == n
        && forall i :: 0 <= i < n ==>
             var p := Percentage(spec.items[i], allocations.value, n);
             && r.value[i].(budgetAllocation := spec.items[i].budgetAllocation) == spec.items[i]
             && spec.budget * p - 0.005 < r.value[i].budgetAllocation <= spec.budget * p + 0.005
  {
  }

  /** Names equal up to case match; and an allocation with an empty name matches every
      item, since every string contains the empty one. */
  lemma MatchFacts(item: SpecItem, a: Allocation)
    ensures Lower(a.name) == Lower(item.name) ==> Matches(item)(a)
    ensures a.name == "" ==> Matches(item)(a)
  {
    ContainsSelf(Lower(item.name));
    ContainsEmpty(Lower(item.name));
  }

  // ---------------------------------------------------------------------------
  // Creating a spec

  /** A new item: id from the id source, allocation 0, unlocked. */
  function NewItem(x: ExtractedItem, id: string, specId: string): SpecItem {
    SpecItem(id, specId, x.name, x.constraints, 0.0, false)
  }

  function NewItems(xs: seq<ExtractedItem>, itemIds: nat -> string, specId: string): (items: seq<SpecItem>)
    ensures |items| == |xs| && forall i :: 0 <= i < |xs| ==> items[i] == NewItem(xs[i], itemIds(i), specId)
  {
    seq(|xs|, i requires 0 <= i < |xs| => NewItem(xs[i], itemIds(i), specId))
  }

  /** `createSpecFromChat`: the extracted items become draft items, then the budget is
      allocated and the spec finalised. `itemIds(i)` is the id generated for item `i`. */
  function SpecFromChat(sessionId: string, extracted: Option<Extraction>, specId: string, itemIds: nat -> string,
                        allocations: Option<seq<Allocation>>): Result<ShoppingSpec>
  {
    match extracted
    case None => Err("spec extraction failed")
    case Some(x) =>
      var draft := ShoppingSpec(specId, sessionId, x.budget, x.deliveryDeadline, NewItems(x.items, itemIds, specId), Draft);
      match AllocateBudget(draft, allocations)
      case Err(m) => Err(m)
      case Ok(items) => Ok(draft.(items := items, status := Finalized))
  }

  method CreateSpecFromChat(sessionId: string, extracted: Option<Extraction>, specId: string, itemIds: nat -> string,
                            allocations: Option<seq<Allocation>>) returns (r: Result<ShoppingSpec>)
    ensures r == SpecFromChat(sessionId, extracted, specId, itemIds, allocations)
  {
    if extracted.None? {
      return Err("spec extraction failed");
    }
    var x := extracted.value;
    var spec := ShoppingSpec(specId, sessionId, x.budget, x.deliveryDeadline, [], Draft);
    var items: seq<SpecItem> := [];
    for i := 0 to |x.items|
      invariant items == NewItems(x.items[..i], itemIds, specId)
    {
      var item := x.items[i];
      items := items + [SpecItem(itemIds(i), specId, item.name, item.constraints, 0.0, false)];
    }
    assert x.items[..|x.items|] == x.items;
    spec := spec.(items := items);
    var outcome := AllocateBudget(spec, allocations);
    if outcome.Err? {
      return Err(outcome.message);
    }
    spec := spec.(items := outcome.value, status := Finalized);
    r := Ok(spec);
  }

  /** Creation fails exactly when the extraction fails, or when there are items and the
      allocation call fails. A created spec is finalised, keeps the extracted budget and
      deadline, and has one item per extracted item, in order, each with its generated
      id, the spec's id, the extracted name and constraints, unlocked, and an allocation
      of the budget times the item's percentage rounded to cents (within half a cent). */
  lemma SpecFromChatFacts(sessionId: string, extracted: Option<Extraction>, specId: string, itemIds: nat -> string,
                          allocations: Option<seq<Allocation>>)
    ensures SpecFromChat(sessionId, extracted, specId, itemIds, allocations).Err? <==>
      extracted.None? || (extracted.value.items != [] && allocations.None?)
    ensures var r := SpecFromChat(sessionId, extracted, specId, itemIds, allocations);
      r.Ok? ==>
        && r.value.status == Finalized && r.value.id == specId && r.value.sessionId == sessionId
        && r.value.budget == extracted.value.budget
        && r.value.deliveryDeadline == extracted.value.deliveryDeadline
        && |r.value.items| == |extracted.value.items|
        && forall i :: 0 <= i < |r.value.items| ==>
             var item := r.value.items[i];
             && item.id == itemIds(i) && item.specId == specId && !item.locked
             && item.name == extracted.value.items[i].name
             && item.constraints == extracted.value.items[i].constraints
             && var p := Percentage(item, allocations.value, |r.value.items|);
                && item.budgetAllocation == RoundCents(extracted.value.budget * p)
                && extracted.value.budget * p - 0.005 < item.budgetAllocation <= extracted.value.budget * p + 0.005
  {
    if extracted.Some? {
      var x := extracted.value;
      var draft := ShoppingSpec(specId, sessionId, x.budget, x.deliveryDeadline, NewItems(x.items, itemIds, specId), Draft);
      AllocateFacts(draft, allocations);
    }
  }

  // ---------------------------------------------------------------------------
  // Refining one item

  /** `updateItemInSpec`: a missing row is an error; otherwise the item takes the model's
      name and constraints and keeps its stored allocation and lock. */
  function UpdateItemInSpec(specId: string, itemId: string, stored: Option<StoredItem>,
                            updated: Option<ExtractedItem>): Result<SpecItem>
  {
    if stored.None? then Err("Item " + itemId + " not found")
    else if updated.None? then Err("refinement failed")
    else Ok(SpecItem(itemId, specId, updated.value.name, updated.value.constraints,
                     stored.value.budgetAllocation, stored.value.locked))
  }

  /** The refined item is an error exactly when the row is missing or the model fails;
      otherwise it keeps id, allocation and lock and takes everything else from the reply. */
  lemma UpdateItemFacts(specId: string, itemId: string, stored: Option<StoredItem>, updated: Option<ExtractedItem>)
    ensures UpdateItemInSpec(specId, itemId, stored, updated).Err? <==> stored.None? || updated.None?
    ensures stored.None? ==> UpdateItemInSpec(specId, itemId, stored, updated) == Err("Item " + itemId + " not found")
    ensures var r := UpdateItemInSpec(specId, itemId, stored, updated);
      r.Ok? ==>
        && r.value.id == itemId && r.value.specId == specId
        && r.value.budgetAllocation == stored.value.budgetAllocation && r.value.locked == stored.value.locked
        && r.value.name == updated.value.name && r.value.constraints == updated.value.constraints
  {
  }
}
