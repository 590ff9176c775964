/** The data shapes of the shopping assistant (candidates, spec items, search
    hits, cart entries, checkout plans and discovery events). Prices and scores
    are reals; identifiers, URLs and free text are strings. */
module Types {

  datatype Option<+T> = None | Some(value: T)

  /** A value or the message of the exception the source would throw. */
  datatype Result<+T> = Ok(value: T) | Err(message: string)

  /** The four ranking dimensions and their weighted composite. */
  datatype Scores = Scores(cost: real, delivery: real, preference: real, coherence: real, total: real)

  const ZeroScores := Scores(0.0, 0.0, 0.0, 0.0, 0.0)

  /** One concrete purchasable offer. */
  datatype Candidate = Candidate(
    id: string,
    title: string,
    price: real,
    currency: string,
    deliveryEstimate: Option<string>,
    deliveryDays: Option<real>,
    variants: seq<string>,
    retailerName: string,
    retailerDomain: string,
    productUrl: string,
    imageUrl: Option<string>,
    inStock: bool,
    scores: Scores,
    explanation: string)

  /** The free-form constraints of a spec item; the pipeline core only passes them on. */
  datatype Constraints = Constraints(
    category: Option<string>,
    brand: Option<seq<string>>,
    color: Option<seq<string>>,
    size: Option<string>,
    style: Option<string>,
    mustHaves: Option<seq<string>>,
    niceToHaves: Option<seq<string>>,
    keywords: Option<seq<string>>)

  datatype SpecItem = SpecItem(
    id: string,
    specId: string,
    name: string,
    constraints: Constraints,
    budgetAllocation: real,
    locked: bool)

  datatype SpecStatus = Draft | Finalized

  datatype ShoppingSpec = ShoppingSpec(
    id: string,
    sessionId: string,
    budget: real,
    deliveryDeadline: Option<string>,
    items: seq<SpecItem>,
    status: SpecStatus)

  /** One normalised search hit. */
  datatype SearchResult = SearchResult(
    title: string,
    url: string,
    description: string,
    retailerDomain: string,
    rawContent: Option<string>,
    score: real)

  /** The output unit of the pipeline for one spec item. */
  datatype ItemRunResult = ItemRunResult(
    itemId: string,
    itemName: string,
    candidates: seq<Candidate>,
    query: string)

  /** One row of a cart; rows are kept in the order they were added. */
  datatype CartEntry = CartEntry(
    itemId: string,
    candidateId: string,
    candidate: Candidate,
    locked: bool)

  datatype CartStatus = Active | CheckedOut

  datatype CartState = CartState(
    id: string,
    sessionId: string,
    status: CartStatus,
    items: seq<CartEntry>,
    totalCost: real,
    budgetRemaining: real,
    latestDelivery: Option<string>)

  /** True when a JavaScript `string | null` is truthy: present and non-empty. */
  predicate Truthy(s: Option<string>) {
    s.Some? && s.value != ""
  }
}
