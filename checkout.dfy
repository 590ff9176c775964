/** The checkout plan: the cart's rows grouped by retailer domain in first-seen order,
    one order per retailer with its lines, subtotal, delivery estimate, a random order
    id and the autofill preview, then the grand total and the delivery timeline.
    `Math.random` becomes a stream of draws in [0, 1); the plan id is a parameter. */
module Checkout {
  import opened Types
  import opened Text
  import Cart

  datatype PaymentInfo = PaymentInfo(cardLastFour: string, cardType: string, billingName: string)

  datatype ShippingAddress = ShippingAddress(name: string, street: string, city: string, state: string,
                                             zip: string, country: string)

  datatype Line = Line(title: string, price: real, variant: string)

  datatype Field = Field(field: string, value: string)

  datatype RetailerPlan = RetailerPlan(
    retailerName: string,
    retailerDomain: string,
    items: seq<Line>,
    subtotal: real,
    estimatedDelivery: string,
    orderId: string,
    autofillPreview: seq<Field>)

  datatype CheckoutPlan = CheckoutPlan(
    id: string,
    cartId: string,
    paymentInfo: PaymentInfo,
    shippingAddress: ShippingAddress,
    retailerPlans: seq<RetailerPlan>,
    grandTotal: real,
    deliveryTimeline: string)

  const DefaultDelivery := "3-5 business days"

  // ---------------------------------------------------------------------------
  // Grouping by retailer

  function RetailerOf(e: CartEntry): string { e.candidate.retailerDomain }

  /** The retailer domains of the rows, each once, in first-seen order: the key order of
      the `retailerGroups` dictionary. */
  function Retailers(items: seq<CartEntry>): seq<string>
    decreases |items|
  {
    if items == [] then []
    else
      var ds := Retailers(items[..|items| - 1]);
      var d := RetailerOf(items[|items| - 1]);
      if d in ds then ds else ds + [d]
  }

  /** The rows of one retailer, in cart order. */
  function GroupOf(items: seq<CartEntry>, d: string): seq<CartEntry>
    decreases |items|
  {
    if items == [] then []
    else GroupOf(items[..|items| - 1], d) + (if RetailerOf(items[|items| - 1]) == d then [items[|items| - 1]] else [])
  }

  /** `domains` and `groups` are the dictionary built from `items`. */
  ghost predicate Grouped(items: seq<CartEntry>, domains: seq<string>, groups: map<string, seq<CartEntry>>) {
    && domains == Retailers(items)
    && (forall d :: d in groups <==> d in domains)
    && (forall d :: d in groups ==> groups[d] == GroupOf(items, d))
    && (forall d :: d !in groups ==> GroupOf(items, d) == [])
  }

  /** Adding one row: a new domain is appended to the keys, and the row is appended to
      its domain's group. */
  lemma GroupStep(items: seq<CartEntry>, i: nat, domains: seq<string>, groups: map<string, seq<CartEntry>>)
    requires i < |items| && Grouped(items[..i], domains, groups)
    ensures var key := RetailerOf(items[i]);
      Grouped(items[..i + 1],
              if key in groups then domains else domains + [key],
              groups[key := (if key in groups then groups[key] else []) + [items[i]]])
  {
    assert items[..i + 1] == items[..i] + [items[i]];
    GroupedSnoc(items[..i], items[i], domains, groups);
  }

  lemma GroupedSnoc(s: seq<CartEntry>, x: CartEntry, domains: seq<string>, groups: map<string, seq<CartEntry>>)
    requires Grouped(s, domains, groups)
    ensures var key := RetailerOf(x);
      Grouped(s + [x],
              if key in groups then domains else domains + [key],
              groups[key := (if key in groups then groups[key] else []) + [x]])
  {
    var key := RetailerOf(x);
    var s' := s + [x];
    assert s'[..|s|] == s && s'[|s|] == x;
    assert Retailers(s') == if key in domains then domains else domains + [key];
    forall d ensures GroupOf(s', d) == GroupOf(s, d) + (if key == d then [x] else []) {
    }
  }

  /** The grouping loop: the dictionary's keys in insertion order and its groups. */
  method GroupByRetailer(items: seq<CartEntry>) returns (domains: seq<string>, groups: map<string, seq<CartEntry>>)
    ensures Grouped(items, domains, groups)
  {
    domains, groups := [], map[];
    for i := 0 to |items|
      invariant Grouped(items[..i], domains, groups)
    {
      GroupStep(items, i, domains, groups);
      var item := items[i];
      var key := item.candidate.retailerDomain;
      if key !in groups {
        groups := groups[key := []];
        domains := domains + [key];
      }
      groups := groups[key := groups[key] + [item]];
    }
    assert items[..|items|] == items;
  }

  /** No domain is listed twice. */
  lemma {:induction false} RetailersDistinct(items: seq<CartEntry>)
    ensures forall i, j :: 0 <= i < j < |Retailers(items)| ==> Retailers(items)[i] != Retailers(items)[j]
    decreases |items|
  {
    if items != [] {
      RetailersDistinct(items[..|items| - 1]);
    }
  }

  /** The domains listed are exactly those of the rows. */
  lemma {:induction false} RetailersCover(items: seq<CartEntry>)
    ensures forall d :: d in Retailers(items) <==> exists i :: 0 <= i < |items| && RetailerOf(items[i]) == d
    decreases |items|
  {
    if items != [] {
      var init := items[..|items| - 1];
      RetailersCover(init);
      forall d ensures d in Retailers(items) <==> exists i :: 0 <= i < |items| && RetailerOf(items[i]) == d {
        if d in Retailers(init) {
          var i :| 0 <= i < |init| && RetailerOf(init[i]) == d;
          assert items[i] == init[i];
        }
        if exists i :: 0 <= i < |items| && RetailerOf(items[i]) == d {
          var i :| 0 <= i < |items| && RetailerOf(items[i]) == d;
          if i < |init| {
            assert init[i] == items[i];
          }
        }
      }
    }
  }

  /** A listed domain's group is not empty; any other domain's is. */
  lemma {:induction false} GroupsNonEmpty(items: seq<CartEntry>)
    ensures forall d :: d in Retailers(items) ==> GroupOf(items, d) != []
    ensures forall d :: d !in Retailers(items) ==> GroupOf(items, d) == []
    decreases |items|
  {
    if items != [] {
      GroupsNonEmpty(items[..|items| - 1]);
    }
  }

  /** A group holds only rows of the cart with that domain. */
  lemma {:induction false} GroupMembers(items: seq<CartEntry>)
    ensures forall d, e :: e in GroupOf(items, d) ==> e in items && RetailerOf(e) == d
    decreases |items|
  {
    if items != [] {
      var init := items[..|items| - 1];
      GroupMembers(init);
      forall d, e | e in GroupOf(items, d) ensures e in items && RetailerOf(e) == d {
        assert GroupOf(items, d) == GroupOf(init, d) + (if RetailerOf(items[|items| - 1]) == d then [items[|items| - 1]] else []);
        if e in GroupOf(init, d) {
          assert e in init;
          var i :| 0 <= i < |init| && init[i] == e;
          assert items[i] == e;
        }
      }
    }
  }

  /** The groups of `ds`, one after the other. */
  function Concat(items: seq<CartEntry>, ds: seq<string>): seq<CartEntry>
    decreases |ds|
  {
    if ds == [] then [] else GroupOf(items, ds[0]) + Concat(items, ds[1..])
  }

  lemma {:induction false} ConcatNone(ds: seq<string>)
    ensures Concat([], ds) == []
    decreases |ds|
  {
    if ds != [] {
      ConcatNone(ds[1..]);
    }
  }

  /** One more row joins the group of its domain, which `ds` lists at most once. */
  lemma {:induction false} ConcatSnoc(init: seq<CartEntry>, last: CartEntry, ds: seq<string>)
    requires forall i, j :: 0 <= i < j < |ds| ==> ds[i] != ds[j]
    ensures multiset(Concat(init + [last], ds))
      == multiset(Concat(init, ds)) + (if RetailerOf(last) in ds then multiset{last} else multiset{})
    decreases |ds|
  {
    var items := init + [last];
    assert items[..|items| - 1] == init;
    if ds != [] {
      assert forall i, j :: 0 <= i < j < |ds[1..]| ==> ds[1..][i] != ds[1..][j] by {
        forall i, j | 0 <= i < j < |ds[1..]| ensures ds[1..][i] != ds[1..][j] {
          assert ds[1..][i] == ds[i + 1] && ds[1..][j] == ds[j + 1];
        }
      }
      ConcatSnoc(init, last, ds[1..]);
      if RetailerOf(last) == ds[0] {
        assert RetailerOf(last) !in ds[1..];
      }
      assert RetailerOf(last) in ds <==> RetailerOf(last) == ds[0] || RetailerOf(last) in ds[1..];
    }
  }

  lemma {:induction false} ConcatCovers(items: seq<CartEntry>, ds: seq<string>)
    requires forall i, j :: 0 <= i < j < |ds| ==> ds[i] != ds[j]
    requires forall i :: 0 <= i < |items| ==> RetailerOf(items[i]) in ds
    ensures multiset(Concat(items, ds)) == multiset(items)
    decreases |items|
  {
    if items == [] {
      ConcatNone(ds);
    } else {
      var init := items[..|items| - 1];
      var last := items[|items| - 1];
      assert items == init + [last];
      ConcatCovers(init, ds);
      ConcatSnoc(init, last, ds);
    }
  }

  /** Every row lands in exactly one group: the groups, in key order, hold exactly the
      rows of the cart. */
  lemma GroupsPartition(items: seq<CartEntry>)
    ensures multiset(Concat(items, Retailers(items))) == multiset(items)
  {
    RetailersDistinct(items);
    RetailersCover(items);
    forall i | 0 <= i < |items| ensures RetailerOf(items[i]) in Retailers(items) {
      assert exists j :: 0 <= j < |items| && RetailerOf(items[j]) == RetailerOf(items[i]);
    }
    ConcatCovers(items, Retailers(items));
  }

  // ---------------------------------------------------------------------------
  // One retailer's plan

  /** `item.candidate.variants.join(", ") || "Standard"` */
  function Variant(variants: seq<string>): string {
    var joined := Join(variants, ", ");
    if joined == "" then "Standard" else joined
  }

  /** The join is empty exactly for no variants or a single empty one. */
  lemma JoinEmpty(variants: seq<string>)
    ensures Join(variants, ", ") == "" <==> variants == [] || variants == [""]
  {
    if |variants| > 1 {
      assert |Join(variants, ", ")| >= 2;
    }
  }

  /** A row's line: no variants, or a single empty one, reads "Standard"; a single
      variant reads as itself. */
  lemma VariantFacts(variants: seq<string>)
    ensures Variant(variants) == "Standard" <==> variants == [] || variants == [""] || Join(variants, ", ") == "Standard"
    ensures |variants| == 1 && variants[0] != "" ==> Variant(variants) == variants[0]
    ensures Variant(variants) != ""
  {
    JoinEmpty(variants);
  }

  function LineOf(e: CartEntry): Line {
    Line(e.candidate.title, e.candidate.price, Variant(e.candidate.variants))
  }

  function Lines(items: seq<CartEntry>): (ls: seq<Line>)
    ensures |ls| == |items| && forall i :: 0 <= i < |items| ==> ls[i] == LineOf(items[i])
  {
    seq(|items|, i requires 0 <= i < |items| => LineOf(items[i]))
  }

  /** The estimate of the group's last row with a non-empty one, or the default. */
  function GroupDelivery(items: seq<CartEntry>): string {
    match Cart.LatestDelivery(items)
    case None => DefaultDelivery
    case Some(d) => d
  }

  /** The delivery loop of one group. */
  method EstimatedDelivery(items: seq<CartEntry>) returns (estimatedDelivery: string)
    ensures estimatedDelivery == GroupDelivery(items)
  {
    estimatedDelivery := DefaultDelivery;
    for i := 0 to |items|
      invariant estimatedDelivery == GroupDelivery(items[..i])
    {
      assert items[..i + 1][..i] == items[..i];
      if Truthy(items[i].candidate.deliveryEstimate) {
        estimatedDelivery := items[i].candidate.deliveryEstimate.value;
      }
    }
    assert items[..|items|] == items;
  }

  /** The estimate is the default exactly when no row of the group has a non-empty one
      (or the last such row's estimate is the default text itself); otherwise it is that
      of a row after which no row has one. */
  lemma GroupDeliveryFacts(items: seq<CartEntry>)
    ensures (forall i :: 0 <= i < |items| ==> !Truthy(items[i].candidate.deliveryEstimate)) ==> GroupDelivery(items) == DefaultDelivery
    ensures GroupDelivery(items) != DefaultDelivery ==>
      exists i :: 0 <= i < |items| && items[i].candidate.deliveryEstimate == Some(GroupDelivery(items))
        && GroupDelivery(items) != ""
        && forall j :: i < j < |items| ==> !Truthy(items[j].candidate.deliveryEstimate)
  {
    Cart.LatestDeliveryFacts(items);
  }

  /** The six autofill fields, in their fixed order. */
  function Autofill(payment: PaymentInfo, address: ShippingAddress): seq<Field> {
    [ Field("Full Name", address.name),
      Field("Street Address", address.street),
      Field("City, State, ZIP", address.city + ", " + address.state + " " + address.zip),
      Field("Country", address.country),
      Field("Payment", payment.cardType + " ending in " + payment.cardLastFour),
      Field("Billing Name", payment.billingName) ]
  }

  // ---------------------------------------------------------------------------
  // Order ids

  const OrderIdChars := "ABCDEFGHIJKLMNOPQRSTUVWXYZ0123456789"

  /** `Math.floor(r * chars.length)` for a draw `r` in [0, 1). */
  function CharIndex(r: real): (k: nat)
    requires 0.0 <= r < 1.0
    ensures k < |OrderIdChars|
  {
    (r * 36.0).Floor
  }

  ghost predicate ValidDraws(random: nat -> real) {
    forall n :: 0.0 <= random(n) < 1.0
  }

  /** The id drawn from `random(start)`, …, `random(start + 11)`. */
  function OrderId(random: nat -> real, start: nat): string
    requires ValidDraws(random)
  {
    seq(12, i requires 0 <= i < 12 => OrderIdChars[CharIndex(random(start + i))])
  }

  /** `generateOrderId`, consuming twelve draws from `start`. */
  method GenerateOrderId(random: nat -> real, start: nat) returns (id: string)
    requires ValidDraws(random)
    ensures id == OrderId(random, start)
  {
    id := "";
    for i := 0 to 12
      invariant |id| == i
      invariant forall k :: 0 <= k < i ==> id[k] == OrderIdChars[CharIndex(random(start + k))]
    {
      id := id + [OrderIdChars[CharIndex(random(start + i))]];
    }
  }

  /** Every order id has twelve characters, each an upper-case letter or a digit. */
  lemma OrderIdShape(random: nat -> real, start: nat)
    requires ValidDraws(random)
    ensures |OrderId(random, start)| == 12
    ensures forall i :: 0 <= i < 12 ==> var c := OrderId(random, start)[i]; 'A' <= c <= 'Z' || '0' <= c <= '9'
  {
    forall k | 0 <= k < 36 ensures 'A' <= OrderIdChars[k] <= 'Z' || '0' <= OrderIdChars[k] <= '9' {
    }
  }

  // ---------------------------------------------------------------------------
  // The whole plan

  /** The plan of retailer `d` whose rows are `items`; its order id uses draws from `start`. */
  function PlanOf(d: string, items: seq<CartEntry>, random: nat -> real, start: nat,
                  payment: PaymentInfo, address: ShippingAddress): RetailerPlan
    requires items != [] && ValidDraws(random)
  {
    RetailerPlan(items[0].candidate.retailerName, d, Lines(items), RoundCents(Cart.PriceSum(items)),
                 GroupDelivery(items), OrderId(random, start), Autofill(payment, address))
  }

  /** The retailer plans, in first-seen retailer order; plan `k` draws its order id from
      `random(12 k)` on. */
  function RetailerPlans(items: seq<CartEntry>, random: nat -> real, payment: PaymentInfo, address: ShippingAddress)
    : (ps: seq<RetailerPlan>)
    requires ValidDraws(random)
    ensures |ps| == |Retailers(items)|
  {
    var ds := Retailers(items);
    GroupsNonEmpty(items);
    seq(|ds|, k requires 0 <= k < |ds| => PlanOf(ds[k], GroupOf(items, ds[k]), random, 12 * k, payment, address))
  }

  function SubtotalSum(ps: seq<RetailerPlan>): real
    decreases |ps|
  {
    if ps == [] then 0.0 else SubtotalSum(ps[..|ps| - 1]) + ps[|ps| - 1].subtotal
  }

  /** The single plan's estimate, or "<N> separate orders, delivery varies by retailer". */
  function Timeline(ps: seq<RetailerPlan>): string {
    if |ps| == 1 then ps[0].estimatedDelivery
    else NatToString(|ps|) + " separate orders, delivery varies by retailer"
  }

  /** `generateCheckoutPlan` on a cart. */
  function PlanFor(cart: CartState, payment: PaymentInfo, address: ShippingAddress, random: nat -> real, planId: string)
    : CheckoutPlan
    requires ValidDraws(random)
  {
    var ps := RetailerPlans(cart.items, random, payment, address);
    CheckoutPlan(planId, cart.id, payment, address, ps, RoundCents(SubtotalSum(ps)), Timeline(ps))
  }

  /** `generateCheckoutPlan`: the grouping loop, then one plan per retailer, then the totals. */
  method GenerateCheckoutPlan(cart: CartState, payment: PaymentInfo, address: ShippingAddress,
                              random: nat -> real, planId: string) returns (plan: CheckoutPlan)
    requires ValidDraws(random)
    ensures plan == PlanFor(cart, payment, address, random, planId)
  {
    var domains, groups := GroupByRetailer(cart.items);
    GroupedKeys(cart.items, domains, groups);
    var retailerPlans := BuildPlans(domains, groups, random, payment, address);
    GroupedPlans(cart.items, domains, groups, random, payment, address, retailerPlans);
    var grandTotal := SubtotalSum(retailerPlans);
    plan := CheckoutPlan(planId, cart.id, payment, address, retailerPlans, RoundCents(grandTotal), Timeline(retailerPlans));
  }

  /** The `map` over the dictionary's entries: plan `k` is built from the `k`-th key's
      group and draws its order id from `random(12 k)` on. */
  method BuildPlans(domains: seq<string>, groups: map<string, seq<CartEntry>>,
                    random: nat -> real, payment: PaymentInfo, address: ShippingAddress)
    returns (retailerPlans: seq<RetailerPlan>)
    requires ValidDraws(random)
    requires forall d :: d in domains ==> d in groups && groups[d] != []
    ensures |retailerPlans| == |domains|
    ensures forall k :: 0 <= k < |domains| ==>
      retailerPlans[k] == PlanOf(domains[k], groups[domains[k]], random, 12 * k, payment, address)
  {
    retailerPlans := [];
    for k := 0 to |domains|
      invariant |retailerPlans| == k
      invariant forall j :: 0 <= j < k ==>
        retailerPlans[j] == PlanOf(domains[j], groups[domains[j]], random, 12 * j, payment, address)
    {
      var d := domains[k];
      assert d in domains;
      var plan := BuildPlan(d, groups[d], random, 12 * k, payment, address);
      retailerPlans := retailerPlans + [plan];
    }
  }

  /** The grouping dictionary has a non-empty group for each of its keys. */
  lemma GroupedKeys(items: seq<CartEntry>, domains: seq<string>, groups: map<string, seq<CartEntry>>)
    requires Grouped(items, domains, groups)
    ensures forall d :: d in domains ==> d in groups && groups[d] != []
  {
    GroupsNonEmpty(items);
  }

  /** Plans built from the grouping dictionary are the retailer plans of the rows. */
  lemma GroupedPlans(items: seq<CartEntry>, domains: seq<string>, groups: map<string, seq<CartEntry>>,
                     random: nat -> real, payment: PaymentInfo, address: ShippingAddress, ps: seq<RetailerPlan>)
    requires ValidDraws(random) && Grouped(items, domains, groups)
    requires |ps| == |domains| && forall d :: d in domains ==> d in groups && groups[d] != []
    requires forall k :: 0 <= k < |domains| ==>
      ps[k] == PlanOf(domains[k], groups[domains[k]], random, 12 * k, payment, address)
    ensures ps == RetailerPlans(items, random, payment, address)
  {
    GroupsNonEmpty(items);
  }

  /** One retailer's plan, with its delivery loop and its order id loop. */
  method BuildPlan(domain: string, items: seq<CartEntry>, random: nat -> real, start: nat,
                   payment: PaymentInfo, address: ShippingAddress) returns (plan: RetailerPlan)
    requires items != [] && ValidDraws(random)
    ensures plan == PlanOf(domain, items, random, start, payment, address)
  {
    var estimatedDelivery := EstimatedDelivery(items);
    var orderId := GenerateOrderId(random, start);
    plan := RetailerPlan(items[0].candidate.retailerName, domain, Lines(items), RoundCents(Cart.PriceSum(items)),
                         estimatedDelivery, orderId, Autofill(payment, address));
  }

  /** One plan per retailer of the cart, in first-seen order; each plan lists its
      retailer's rows in cart order, takes its name from the first of them, and its
      subtotal and the grand total are within half a cent of the exact sums; a one-plan
      checkout reports that plan's estimate. */
  lemma PlanFacts(cart: CartState, payment: PaymentInfo, address: ShippingAddress, random: nat -> real, planId: string)
    requires ValidDraws(random)
    ensures var plan := PlanFor(cart, payment, address, random, planId);
      var ds := Retailers(cart.items);
      && |plan.retailerPlans| == |ds|
      && (forall k :: 0 <= k < |ds| ==>
            var p := plan.retailerPlans[k];
            var g := GroupOf(cart.items, ds[k]);
            && g != []
            && p.retailerDomain == ds[k] && p.retailerName == g[0].candidate.retailerName
            && |p.items| == |g| && (forall i :: 0 <= i < |g| ==> p.items[i].title == g[i].candidate.title && p.items[i].price == g[i].candidate.price)
            && Cart.PriceSum(g) - 0.005 < p.subtotal <= Cart.PriceSum(g) + 0.005
            && |p.orderId| == 12 && |p.autofillPreview| == 6)
      && SubtotalSum(plan.retailerPlans) - 0.005 < plan.grandTotal <= SubtotalSum(plan.retailerPlans) + 0.005
      && (|ds| == 1 ==> plan.deliveryTimeline == plan.retailerPlans[0].estimatedDelivery)
      && (|ds| != 1 ==> plan.deliveryTimeline == NatToString(|ds|) + " separate orders, delivery varies by retailer")
  {
    GroupsNonEmpty(cart.items);
  }
}
