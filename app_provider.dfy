/** The client's state updates: the discovery run that reads the event stream and folds
    each event into the progress table and the result list, the local lock toggle on the
    cart, and the remaining budget recomputed from each cart reply. React's `setState`
    updaters are pure functions of the previous state and are modelled as functions; the
    stream loop, which reassigns its buffer across reads, is a method. */
module AppProvider {
  import opened Types
  import opened Stream
  import Cart

  datatype StepName = Search | Extract | Rank

  datatype StepStatus = Pending | InProgress | Complete | Error

  datatype Steps = Steps(search: StepStatus, extract: StepStatus, rank: StepStatus)

  const InitialSteps := Steps(Pending, Pending, Pending)

  datatype ItemProgress = ItemProgress(itemId: string, itemName: string, steps: Steps)

  /** A parsed event; `Unknown` is JSON whose `type` is none of the four (a number, a
      string or a boolean included), and `Null` is the JSON text `null`, on which reading
      `event.type` throws. */
  datatype Event =
    | ItemStep(itemId: string, itemName: string, step: StepName, status: StepStatus)
    | ItemComplete(itemId: string, itemName: string, candidates: seq<Candidate>, query: string)
    | Done
    | Failure(message: string)
    | Unknown
    | Null

  /** The part of the client state these updates read or write. */
  datatype AppState = AppState(
    spec: Option<ShoppingSpec>,
    discoveryResults: seq<ItemRunResult>,
    itemProgress: map<string, ItemProgress>,
    cart: Option<CartState>,
    loading: bool,
    error: Option<string>)

  /** After one event the run either reads on or has returned. */
  datatype Flow = Continue(state: AppState) | Stopped(state: AppState)

  function Step(steps: Steps, name: StepName): StepStatus {
    match name
    case Search => steps.search
    case Extract => steps.extract
    case Rank => steps.rank
  }

  /** `{ ...steps, [name]: status }` */
  function WithStep(steps: Steps, name: StepName, status: StepStatus): Steps {
    match name
    case Search => steps.(search := status)
    case Extract => steps.(extract := status)
    case Rank => steps.(rank := status)
  }

  /** The named step takes the new status and the other two keep theirs. */
  lemma WithStepFacts(steps: Steps, name: StepName, status: StepStatus)
    ensures Step(WithStep(steps, name, status), name) == status
    ensures forall other :: other != name ==> Step(WithStep(steps, name, status), other) == Step(steps, other)
  {
  }

  // ---------------------------------------------------------------------------
  // Folding events into the state

  function ApplyEvent(s: AppState, e: Event): Flow {
    match e
    case ItemStep(id, name, step, status) =>
      var prev := if id in s.itemProgress then s.itemProgress[id] else ItemProgress(id, name, InitialSteps);
      Continue(s.(itemProgress := s.itemProgress[id := prev.(itemName := name, steps := WithStep(prev.steps, step, status))]))
    case ItemComplete(id, name, candidates, query) =>
      Continue(s.(discoveryResults := s.discoveryResults + [ItemRunResult(id, name, candidates, query)]))
    case Done => Stopped(s.(loading := false))
    case Failure(message) => Stopped(s.(loading := false, error := Some(message)))
    case Unknown => Continue(s)
    case Null => Stopped(s.(loading := false, error := Some("Failed to run discovery")))
  }

  /** A step event changes the named step of the named item and nothing else: an item
      not yet in the table starts with every step pending; the other items, the other
      steps and the rest of the state are unchanged. */
  lemma ItemStepFacts(s: AppState, id: string, name: string, step: StepName, status: StepStatus)
    ensures var f := ApplyEvent(s, ItemStep(id, name, step, status));
      && f.Continue?
      && f.state == s.(itemProgress := f.state.itemProgress)
      && f.state.itemProgress.Keys == s.itemProgress.Keys + {id}
      && (forall k :: k in s.itemProgress && k != id ==> f.state.itemProgress[k] == s.itemProgress[k])
      && var p := f.state.itemProgress[id];
         && p.itemName == name
         && Step(p.steps, step) == status
         && (id in s.itemProgress ==> p.itemId == s.itemProgress[id].itemId)
         && (id !in s.itemProgress ==> p.itemId == id)
         && forall other :: other != step ==>
              Step(p.steps, other) == (if id in s.itemProgress then Step(s.itemProgress[id].steps, other) else Pending)
  {
    var prev := if id in s.itemProgress then s.itemProgress[id] else ItemProgress(id, name, InitialSteps);
    WithStepFacts(prev.steps, step, status);
  }

  /** A completion event appends exactly one result, built from the event, and changes
      nothing else. */
  lemma ItemCompleteFacts(s: AppState, id: string, name: string, candidates: seq<Candidate>, query: string)
    ensures var f := ApplyEvent(s, ItemComplete(id, name, candidates, query));
      && f.Continue?
      && |f.state.discoveryResults| == |s.discoveryResults| + 1
      && f.state.discoveryResults[..|s.discoveryResults|] == s.discoveryResults
      && f.state.discoveryResults[|s.discoveryResults|] == ItemRunResult(id, name, candidates, query)
      && f.state == s.(discoveryResults := f.state.discoveryResults)
  {
  }

  /** `done` clears loading and stops; `error` clears loading, records the message and
      stops; `null` throws into the run's catch, which clears loading and records the
      generic failure; every other event reads on. */
  lemma StopFacts(s: AppState, e: Event)
    ensures ApplyEvent(s, e).Stopped? <==> e.Done? || e.Failure? || e.Null?
    ensures e.Done? ==> ApplyEvent(s, e) == Stopped(s.(loading := false))
    ensures e.Failure? ==> ApplyEvent(s, e) == Stopped(s.(loading := false, error := Some(e.message)))
    ensures e.Null? ==> ApplyEvent(s, e) == Stopped(s.(loading := false, error := Some("Failed to run discovery")))
  {
  }

  /** One frame, read as the client does with `/^data:\s*(.+)$/m`: no line starting
      with `data:`, or JSON text that does not parse, leaves the state as it is. `parse`
      is `JSON.parse`, `None` when it throws. */
  function HandleFrame(s: AppState, frame: string, parse: string -> Option<Event>): Flow {
    match DataPayload(frame)
    case None => Continue(s)
    case Some(text) =>
      match parse(text)
      case None => Continue(s)
      case Some(e) => ApplyEvent(s, e)
  }

  /** The frames that leave the state unchanged: those the regular expression finds no
      JSON text in (in particular those none of whose lines starts with `data:`), and
      those whose text does not parse; any other frame applies its event. */
  lemma SkippedFrames(s: AppState, frame: string, parse: string -> Option<Event>)
    ensures DataPayload(frame).None? ==> HandleFrame(s, frame, parse) == Continue(s)
    ensures DataPayload(frame).Some? && parse(DataPayload(frame).value).None? ==> HandleFrame(s, frame, parse) == Continue(s)
    ensures DataPayload(frame).Some? && parse(DataPayload(frame).value).Some? ==>
      HandleFrame(s, frame, parse) == ApplyEvent(s, parse(DataPayload(frame).value).value)
    ensures (forall i :: 0 <= i < |frame| && LineStart(frame, i) ==> !Text.StartsWith(frame[i..], "data:")) ==>
      HandleFrame(s, frame, parse) == Continue(s)
  {
    if forall i :: 0 <= i < |frame| && LineStart(frame, i) ==> !Text.StartsWith(frame[i..], "data:") {
      NoDataLine(frame, 0);
    }
  }

  /** The frames in order, until an event stops the run. */
  function ApplyFrames(s: AppState, frames: seq<string>, parse: string -> Option<Event>): Flow {
    if frames == [] then Continue(s)
    else match ApplyFrames(s, Init(frames), parse)
      case Stopped(t) => Stopped(t)
      case Continue(t) => HandleFrame(t, Last(frames), parse)
  }

  /** Going on with more frames, unless the run has stopped. */
  function Then(f: Flow, frames: seq<string>, parse: string -> Option<Event>): Flow {
    match f
    case Stopped(_) => f
    case Continue(t) => ApplyFrames(t, frames, parse)
  }

  /** Frames are consumed one after the other, and nothing after a stop has any effect. */
  lemma {:induction false} ApplyFramesAppend(s: AppState, a: seq<string>, b: seq<string>, parse: string -> Option<Event>)
    ensures ApplyFrames(s, a + b, parse) == Then(ApplyFrames(s, a, parse), b, parse)
    decreases |b|
  {
    if b == [] {
      assert a + b == a;
    } else {
      assert Init(a + b) == a + Init(b);
      ApplyFramesAppend(s, a, Init(b), parse);
      assert Last(a + b) == Last(b);
    }
  }

  /** The results of the completion events among `frames`, in order. */
  function Completed(frames: seq<string>, parse: string -> Option<Event>): seq<ItemRunResult> {
    if frames == [] then []
    else
      var more := match DataPayload(Last(frames))
        case Some(text) =>
          (match parse(text)
           case Some(ItemComplete(id, name, candidates, query)) => [ItemRunResult(id, name, candidates, query)]
           case _ => [])
        case None => [];
      Completed(Init(frames), parse) + more
  }

  /** While the run reads on, the result list is the old one followed by one result per
      completion event, in arrival order. */
  lemma {:induction false} ResultsInArrivalOrder(s: AppState, frames: seq<string>, parse: string -> Option<Event>)
    requires ApplyFrames(s, frames, parse).Continue?
    ensures ApplyFrames(s, frames, parse).state.discoveryResults == s.discoveryResults + Completed(frames, parse)
    decreases |frames|
  {
    if frames != [] {
      ResultsInArrivalOrder(s, Init(frames), parse);
    }
  }

  // ---------------------------------------------------------------------------
  // A discovery run

  /** Every spec item's entry, all steps pending; a later item with the same id wins. */
  function InitialProgressOf(items: seq<SpecItem>): map<string, ItemProgress> {
    if items == [] then map[]
    else InitialProgressOf(Init(items))[Last(items).id := ItemProgress(Last(items).id, Last(items).name, InitialSteps)]
  }

  function Ids(items: seq<SpecItem>): set<string> {
    set i | 0 <= i < |items| :: items[i].id
  }

  lemma {:induction false} InitialProgressFacts(items: seq<SpecItem>)
    ensures InitialProgressOf(items).Keys == Ids(items)
    ensures forall id :: id in InitialProgressOf(items) ==>
      && InitialProgressOf(items)[id].itemId == id
      && InitialProgressOf(items)[id].steps == InitialSteps
      && exists i :: 0 <= i < |items| && items[i].id == id && InitialProgressOf(items)[id].itemName == items[i].name
    decreases |items|
  {
    if items != [] {
      var front := Init(items);
      InitialProgressFacts(front);
      assert forall i :: 0 <= i < |front| ==> front[i] == items[i];
      assert Ids(items) == Ids(front) + {Last(items).id} by {
        forall id | id in Ids(items)
          ensures id in Ids(front) + {Last(items).id}
        {
          var i :| 0 <= i < |items| && items[i].id == id;
          if i < |front| {
            assert id == front[i].id;
          }
        }
      }
    }
  }

  method InitialProgress(items: seq<SpecItem>) returns (progress: map<string, ItemProgress>)
    ensures progress == InitialProgressOf(items)
  {
    progress := map[];
    for i := 0 to |items|
      invariant progress == InitialProgressOf(items[..i])
    {
      var item := items[i];
      progress := progress[item.id := ItemProgress(item.id, item.name, InitialSteps)];
      assert Init(items[..i + 1]) == items[..i];
    }
    assert items[..|items|] == items;
  }

  /** The state as the run starts: loading, no error, no results, the fresh progress table. */
  function Started(s: AppState, progress: map<string, ItemProgress>): AppState {
    s.(loading := true, error := None, discoveryResults := [], itemProgress := progress)
  }

  /** `runDiscovery`: nothing without a spec; otherwise the run starts, and the frames of
      the whole stream are folded in until `done`, `error` or a `null`; a stream that ends without
      either clears loading. `response` is `None` when the request fails. */
  function Discovery(s: AppState, response: Option<seq<string>>, parse: string -> Option<Event>): AppState {
    if s.spec.None? then s
    else
      var started := Started(s, InitialProgressOf(s.spec.value.items));
      if response.None? then started.(loading := false, error := Some("Failed to run discovery"))
      else match ApplyFrames(started, Frames(response.value), parse)
        case Stopped(t) => t
        case Continue(t) => t.(loading := false)
  }

  /** Without a spec nothing changes; a failed request ends with loading cleared and the
      error set; a run always ends with loading cleared; the results are those of the
      stream's completion events, in order, when no event stopped the run. */
  lemma DiscoveryFacts(s: AppState, response: Option<seq<string>>, parse: string -> Option<Event>)
    ensures s.spec.None? ==> Discovery(s, response, parse) == s
    ensures s.spec.Some? ==> !Discovery(s, response, parse).loading
    ensures s.spec.Some? && response.None? ==> Discovery(s, response, parse).error == Some("Failed to run discovery")
    ensures s.spec.Some? && response.Some? ==>
      var started := Started(s, InitialProgressOf(s.spec.value.items));
      ApplyFrames(started, Frames(response.value), parse).Continue? ==>
        Discovery(s, response, parse).discoveryResults == Completed(Frames(response.value), parse)
  {
    if s.spec.Some? && response.Some? {
      var started := Started(s, InitialProgressOf(s.spec.value.items));
      var f := ApplyFrames(started, Frames(response.value), parse);
      if f.Continue? {
        ResultsInArrivalOrder(started, Frames(response.value), parse);
      } else {
        StoppedNotLoading(started, Frames(response.value), parse);
      }
    }
  }

  lemma {:induction false} StoppedNotLoading(s: AppState, frames: seq<string>, parse: string -> Option<Event>)
    requires ApplyFrames(s, frames, parse).Stopped?
    ensures !ApplyFrames(s, frames, parse).state.loading
    decreases |frames|
  {
    if frames != [] && ApplyFrames(s, Init(frames), parse).Stopped? {
      StoppedNotLoading(s, Init(frames), parse);
    }
  }

  /** As written, the run loses an `error` event whose message holds U+2028: the
      regular expression cuts its JSON text, `JSON.parse` rejects the cut text (an
      unterminated string), the frame is skipped, and the stream ends with loading
      cleared, no error shown and no results. */
  lemma ErrorMessageLost(s: AppState, parse: string -> Option<Event>)
    requires s.spec.Some?
    requires parse(ErrorCut).None?
    ensures var d := Discovery(s, Some([Frame(ErrorWithSeparator)]), parse);
      !d.loading && d.error.None? && d.discoveryResults == []
  {
    var p := ErrorWithSeparator;
    assert '\n' !in p by {
      assert forall i :: 0 <= i < |p| ==> p[i] != '\n';
    }
    assert Joined([Frame(p)]) == Written([p]) by {
      assert Init([Frame(p)]) == [] && Init([p]) == [];
    }
    WrittenSplit([p]);
    assert Frames([Frame(p)]) == ["data: " + p];
    DataPayloadCutsAtLineSeparator();
    var started := Started(s, InitialProgressOf(s.spec.value.items));
    assert Init(["data: " + p]) == [];
    assert ApplyFrames(started, ["data: " + p], parse) == Continue(started);
  }

  /** The inner loop over the complete frames of one read. */
  method ConsumeFrames(s: AppState, lines: seq<string>, parse: string -> Option<Event>) returns (flow: Flow)
    ensures flow == ApplyFrames(s, lines, parse)
  {
    var state := s;
    for j := 0 to |lines|
      invariant ApplyFrames(s, lines[..j], parse) == Continue(state)
    {
      assert Init(lines[..j + 1]) == lines[..j] && Last(lines[..j + 1]) == lines[j];
      var text := DataPayload(lines[j]);
      if text.None? {
        continue;
      }
      var parsed := parse(text.value);
      if parsed.None? {
        continue;
      }
      var event := parsed.value;
      match event {
        case ItemStep(id, name, step, status) =>
          var prev := if id in state.itemProgress then state.itemProgress[id] else ItemProgress(id, name, InitialSteps);
          state := state.(itemProgress := state.itemProgress[id := prev.(itemName := name, steps := WithStep(prev.steps, step, status))]);
        case ItemComplete(id, name, candidates, query) =>
          state := state.(discoveryResults := state.discoveryResults + [ItemRunResult(id, name, candidates, query)]);
        case Done =>
          flow := Stopped(state.(loading := false));
          StopsEarly(s, lines, j + 1, flow, parse);
          return;
        case Failure(message) =>
          flow := Stopped(state.(loading := false, error := Some(message)));
          StopsEarly(s, lines, j + 1, flow, parse);
          return;
        case Unknown =>
        case Null =>
          flow := Stopped(state.(loading := false, error := Some("Failed to run discovery")));
          StopsEarly(s, lines, j + 1, flow, parse);
          return;
      }
    }
    assert lines[..|lines|] == lines;
    flow := Continue(state);
  }

  lemma StopsEarly(s: AppState, lines: seq<string>, k: nat, flow: Flow, parse: string -> Option<Event>)
    requires k <= |lines| && flow.Stopped? && ApplyFrames(s, lines[..k], parse) == flow
    ensures ApplyFrames(s, lines, parse) == flow
  {
    assert lines == lines[..k] + lines[k..];
    ApplyFramesAppend(s, lines[..k], lines[k..], parse);
  }

  /** A stop inside one read ends the whole run with that state. */
  lemma RunStops(start: AppState, chunks: seq<string>, i: nat, seen: seq<string>, complete: seq<string>,
                 state: AppState, flow: Flow, parse: string -> Option<Event>)
    requires i < |chunks| && seen + complete == Frames(chunks[..i + 1])
    requires ApplyFrames(start, seen, parse) == Continue(state)
    requires flow == ApplyFrames(state, complete, parse) && flow.Stopped?
    ensures ApplyFrames(start, Frames(chunks), parse) == flow
  {
    ApplyFramesAppend(start, seen, complete, parse);
    FramesGrow(chunks, i + 1);
    var more :| Frames(chunks) == Frames(chunks[..i + 1]) + more;
    ApplyFramesAppend(start, seen + complete, more, parse);
  }

  /** `runDiscovery`, with the body of the response as the chunks its reader returns. */
  method RunDiscovery(s: AppState, response: Option<seq<string>>, parse: string -> Option<Event>) returns (t: AppState)
    ensures t == Discovery(s, response, parse)
  {
    if s.spec.None? {
      return s;
    }
    var progress := InitialProgress(s.spec.value.items);
    var state := Started(s, progress);
    ghost var start := state;
    if response.None? {
      return state.(loading := false, error := Some("Failed to run discovery"));
    }
    var chunks := response.value;
    var buffer := "";
    ghost var seen: seq<string> := [];
    for i := 0 to |chunks|
      invariant seen + [buffer] == Split(Joined(chunks[..i]))
      invariant ApplyFrames(start, seen, parse) == Continue(state)
    {
      ReadInvariant(chunks, i, seen, buffer);
      var lines := Split(buffer + chunks[i]);
      var complete := Init(lines);
      var flow := ConsumeFrames(state, complete, parse);
      if flow.Stopped? {
        RunStops(start, chunks, i, seen, complete, state, flow, parse);
        return flow.state;
      }
      ApplyFramesAppend(start, seen, complete, parse);
      state := flow.state;
      seen := seen + complete;
      buffer := Last(lines);
    }
    assert chunks[..|chunks|] == chunks;
    t := state.(loading := false);
  }

  // ---------------------------------------------------------------------------
  // The cart as the client holds it

  /** `toggleLockInCart`: flips `locked` on the rows of the item, locally. */
  function ToggleLockInCart(s: AppState, itemId: string): AppState {
    if s.cart.None? then s
    else s.(cart := Some(s.cart.value.(items := Cart.Toggled(s.cart.value.items, itemId))))
  }

  /** Without a cart nothing changes; otherwise exactly the rows of the item flip, the
      rest of the cart and of the state is unchanged, and toggling twice restores it. */
  lemma ToggleLockFacts(s: AppState, itemId: string)
    ensures s.cart.None? ==> ToggleLockInCart(s, itemId) == s
    ensures s.cart.Some? ==>
      var c := ToggleLockInCart(s, itemId).cart.value;
      && ToggleLockInCart(s, itemId) == s.(cart := Some(c))
      && c == s.cart.value.(items := c.items)
      && |c.items| == |s.cart.value.items|
      && forall i :: 0 <= i < |c.items| ==>
           var e := s.cart.value.items[i];
           c.items[i] == if e.itemId == itemId then e.(locked := !e.locked) else e
    ensures ToggleLockInCart(ToggleLockInCart(s, itemId), itemId) == s
  {
    if s.cart.Some? {
      Cart.ToggledFacts(s.cart.value.items, itemId);
      Cart.ToggleTwice(s.cart.value.items, itemId);
    }
  }

  /** The spec's budget, 0 without a spec. */
  function Budget(s: AppState): real {
    if s.spec.Some? then s.spec.value.budget else 0.0
  }

  /** What a cart request comes back with: the request or `res.json()` fails
      (`RequestFailed`); the route answers `{ error }` with status 400 or 500, which
      `res.json()` reads without complaint (`ErrorReply`); or the route answers
      `{ cart }` (`CartBody`). */
  datatype CartResponse = RequestFailed | ErrorReply | CartBody(cart: CartState)

  /** The state after a cart request. On a failed request the catch records `failure`.
      On an error reply the queued updater reads `data.cart.totalCost` of an undefined
      cart and throws when React runs it, outside the `try`: no update is made and the
      message is never recorded. On a cart the server's cart is kept with the remaining
      budget recomputed. */
  function CartReply(s: AppState, reply: CartResponse, failure: string): AppState {
    match reply
    case RequestFailed => s.(error := Some(failure))
    case ErrorReply => s
    case CartBody(c) => s.(cart := Some(c.(budgetRemaining := Budget(s) - c.totalCost)))
  }

  function AddToCartReply(s: AppState, reply: CartResponse): AppState {
    CartReply(s, reply, "Failed to add to cart")
  }

  function RemoveFromCartReply(s: AppState, reply: CartResponse): AppState {
    CartReply(s, reply, "Failed to remove from cart")
  }

  function SwapInCartReply(s: AppState, reply: CartResponse): AppState {
    CartReply(s, reply, "Failed to swap item")
  }

  /** After add, remove or swap: with a cart, the remaining budget and the total add up
      to the spec's budget (0 without a spec), the rest of the cart is the server's, and
      nothing else changes; a failed request only records its own message; an error
      reply changes nothing, so its message is lost. */
  lemma CartReplyFacts(s: AppState, reply: CartResponse)
    ensures forall t :: t in {AddToCartReply(s, reply), RemoveFromCartReply(s, reply), SwapInCartReply(s, reply)} ==>
      match reply
      case RequestFailed => t.cart == s.cart && t == s.(error := t.error) && t.error.Some?
      case ErrorReply => t == s
      case CartBody(c) =>
        && t.cart.Some? && t == s.(cart := t.cart)
        && t.cart.value.budgetRemaining + t.cart.value.totalCost == Budget(s)
        && t.cart.value == c.(budgetRemaining := t.cart.value.budgetRemaining)
    ensures reply.RequestFailed? ==>
      && AddToCartReply(s, reply).error == Some("Failed to add to cart")
      && RemoveFromCartReply(s, reply).error == Some("Failed to remove from cart")
      && SwapInCartReply(s, reply).error == Some("Failed to swap item")
    ensures s.spec.None? && reply.CartBody? ==> AddToCartReply(s, reply).cart.value.budgetRemaining == -reply.cart.totalCost
  {
  }
}
