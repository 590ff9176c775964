/** The scoring engine: two deterministic score dimensions, two supplied by the
    language model, a fixed-weight composite, a stable sort truncated to the top
    three, and the cross-item coherence pass. */
module Ranking {
  import opened Types
  import opened Sorting
  import opened Seqs

  const CostWeight: real := 0.3
  const DeliveryWeight: real := 0.25
  const PreferenceWeight: real := 0.3
  const CoherenceWeight: real := 0.15

  /** How many ranked candidates are kept per item. */
  const TopK: nat := 3

  function Min(a: int, b: int): int { if a <= b then a else b }

  function Clamp01(x: real): real { if x < 0.0 then 0.0 else if x > 1.0 then 1.0 else x }

  /** Cost dimension: neutral without a budget, otherwise the unused share of the
      budget, clamped to [0, 1]. */
  function CostScore(price: real, itemBudget: real): (r: real)
    ensures 0.0 <= r <= 1.0
    ensures itemBudget <= 0.0 ==> r == 0.5
    ensures itemBudget > 0.0 && price <= 0.0 ==> r == 1.0
    ensures itemBudget > 0.0 && price >= itemBudget ==> r == 0.0
    ensures itemBudget > 0.0 && 0.0 <= price <= itemBudget ==> r * itemBudget == itemBudget - price
  {
    if itemBudget <= 0.0 then 0.5 else Clamp01(1.0 - price / itemBudget)
  }

  /** A dearer offer never scores better on cost. */
  lemma CostScoreAntitone(p1: real, p2: real, itemBudget: real)
    requires p1 <= p2
    ensures CostScore(p1, itemBudget) >= CostScore(p2, itemBudget)
  {
    if itemBudget > 0.0 {
      assert p1 / itemBudget <= p2 / itemBudget by {
        assert p2 / itemBudget - p1 / itemBudget == (p2 - p1) / itemBudget;
      }
    }
  }

  /** Delivery dimension over the promised delivery days and the days left until
      the deadline (both possibly unknown). */
  function DeliveryScore(deliveryDays: Option<real>, deadlineDays: Option<int>): (r: real)
    ensures 0.0 <= r <= 1.0
    ensures deliveryDays.None? ==> r == 0.5
    ensures deliveryDays.Some? && deadlineDays.None? ==> r == 0.8
    ensures deliveryDays.Some? && deadlineDays.Some? ==>
              (r == 1.0 <==> deliveryDays.value <= deadlineDays.value as real)
    ensures deliveryDays.Some? && deadlineDays.Some? && deliveryDays.value > deadlineDays.value as real ==>
              r == (if deliveryDays.value - deadlineDays.value as real >= 5.0 then 0.0
                    else 1.0 - (deliveryDays.value - deadlineDays.value as real) / 5.0)
  {
    match deliveryDays
    case None => 0.5
    case Some(days) =>
      match deadlineDays
      case None => 0.8
      case Some(deadline) =>
        if days <= deadline as real then 1.0
        else
          var overage := days - deadline as real;
          if 1.0 - overage / 5.0 < 0.0 then 0.0 else 1.0 - overage / 5.0
  }

  /** Slower delivery never scores better. */
  lemma DeliveryScoreAntitone(d1: real, d2: real, deadlineDays: Option<int>)
    requires d1 <= d2
    ensures DeliveryScore(Some(d1), deadlineDays) >= DeliveryScore(Some(d2), deadlineDays)
  {
  }

  /** The weighted composite of the four dimensions. */
  function Total(cost: real, delivery: real, preference: real, coherence: real): (r: real)
    ensures (0.0 <= cost <= 1.0 && 0.0 <= delivery <= 1.0 && 0.0 <= preference <= 1.0 && 0.0 <= coherence <= 1.0)
              ==> 0.0 <= r <= 1.0
    ensures cost == delivery == preference == coherence ==> r == cost
  {
    CostWeight * cost + DeliveryWeight * delivery + PreferenceWeight * preference + CoherenceWeight * coherence
  }

  /** A candidate's total as its scores currently say. */
  function TotalOf(c: Candidate): real { c.scores.total }

  /** The entry the model returned for one candidate. */
  datatype ModelScore = ModelScore(candidateId: string, preference: Option<real>, coherence: Option<real>)

  function OrDefault(x: Option<real>): real {
    match x case Some(v) => v case None => 0.5
  }

  /** The first model entry for candidate `id`. */
  function ModelScoreFor(llm: seq<ModelScore>, id: string): Option<ModelScore> {
    Find(llm, (s: ModelScore) => s.candidateId == id)
  }

  /** First loop of `scoreCandidates`: the two deterministic dimensions. */
  function WithDeterministic(c: Candidate, itemBudget: real, deadlineDays: Option<int>): Candidate {
    c.(scores := c.scores.(cost := CostScore(c.price, itemBudget),
                           delivery := DeliveryScore(c.deliveryDays, deadlineDays)))
  }

  /** Second loop: the model's two dimensions (0.5 when absent) and the recomputed total. */
  function WithModel(c: Candidate, llm: seq<ModelScore>): Candidate {
    var m := ModelScoreFor(llm, c.id);
    var preference := if m.Some? then OrDefault(m.value.preference) else 0.5;
    var coherence := if m.Some? then OrDefault(m.value.coherence) else 0.5;
    c.(scores := Scores(c.scores.cost, c.scores.delivery, preference, coherence,
                        Total(c.scores.cost, c.scores.delivery, preference, coherence)))
  }

  function Scored(c: Candidate, itemBudget: real, deadlineDays: Option<int>, llm: seq<ModelScore>): Candidate {
    WithModel(WithDeterministic(c, itemBudget, deadlineDays), llm)
  }

  function ScoreAll(s: seq<Candidate>, itemBudget: real, deadlineDays: Option<int>, llm: seq<ModelScore>): seq<Candidate> {
    seq(|s|, i requires 0 <= i < |s| => Scored(s[i], itemBudget, deadlineDays, llm))
  }

  /** All candidates, scored, in ranking order. */
  function Ranked(s: seq<Candidate>, itemBudget: real, deadlineDays: Option<int>, llm: seq<ModelScore>): seq<Candidate> {
    SortDesc(ScoreAll(s, itemBudget, deadlineDays, llm), TotalOf)
  }

  /** Scoring changes only the scores; cost and delivery lie in [0, 1]; a candidate the
      model did not score gets 0.5 for preference and coherence, otherwise the first
      matching entry supplies them; the total is the weighted composite. */
  lemma ScoredFacts(c: Candidate, itemBudget: real, deadlineDays: Option<int>, llm: seq<ModelScore>)
    ensures var r := Scored(c, itemBudget, deadlineDays, llm);
      && r.(scores := c.scores) == c
      && 0.0 <= r.scores.cost <= 1.0 && 0.0 <= r.scores.delivery <= 1.0
      && r.scores.cost == CostScore(c.price, itemBudget)
      && r.scores.delivery == DeliveryScore(c.deliveryDays, deadlineDays)
      && r.scores.total == Total(r.scores.cost, r.scores.delivery, r.scores.preference, r.scores.coherence)
      && ((forall i :: 0 <= i < |llm| ==> llm[i].candidateId != c.id) ==>
            r.scores.preference == 0.5 && r.scores.coherence == 0.5)
      && (forall i :: (0 <= i < |llm| && llm[i].candidateId == c.id
                         && (forall j :: 0 <= j < i ==> llm[j].candidateId != c.id)) ==>
            r.scores.preference == OrDefault(llm[i].preference)
            && r.scores.coherence == OrDefault(llm[i].coherence))
      && (0.0 <= r.scores.preference <= 1.0 && 0.0 <= r.scores.coherence <= 1.0 ==> 0.0 <= r.scores.total <= 1.0)
  {
    var p := (s: ModelScore) => s.candidateId == c.id;
    var m := Find(llm, p);
    forall i | 0 <= i < |llm| && llm[i].candidateId == c.id && (forall j :: 0 <= j < i ==> llm[j].candidateId != c.id)
      ensures m == Some(llm[i])
    {
      assert p(llm[i]);
      var k :| 0 <= k < |llm| && llm[k] == m.value && p(llm[k]) && forall j :: 0 <= j < k ==> !p(llm[j]);
      assert k == i;
    }
  }

  /** The ranked list is a permutation of the scored input, in non-increasing total,
      ties in input order, and every kept element outranks every dropped one. */
  lemma {:induction false} RankedFacts(s: seq<Candidate>, itemBudget: real, deadlineDays: Option<int>, llm: seq<ModelScore>)
    ensures var r := Ranked(s, itemBudget, deadlineDays, llm);
      && |r| == |s|
      && multiset(r) == multiset(ScoreAll(s, itemBudget, deadlineDays, llm))
      && (forall i :: 0 <= i < |r| ==> exists j :: 0 <= j < |s| && r[i] == Scored(s[j], itemBudget, deadlineDays, llm))
      && (forall i, j :: 0 <= i < j < |r| ==> r[i].scores.total >= r[j].scores.total)
      && (forall v :: WithKey(r, TotalOf, v) == WithKey(ScoreAll(s, itemBudget, deadlineDays, llm), TotalOf, v))
  {
    var all := ScoreAll(s, itemBudget, deadlineDays, llm);
    SortDescFacts(all, TotalOf);
    var r := Ranked(s, itemBudget, deadlineDays, llm);
    forall i | 0 <= i < |r| ensures exists j :: 0 <= j < |s| && r[i] == Scored(s[j], itemBudget, deadlineDays, llm) {
      assert r[i] in multiset(all);
      var j :| 0 <= j < |all| && all[j] == r[i];
    }
  }

  /** The top-three slice after the explanations are attached. */
  function Explained(s: seq<Candidate>, explain: Candidate -> Option<string>): seq<Candidate>
    requires forall i :: 0 <= i < |s| ==> explain(s[i]).Some?
  {
    seq(|s|, i requires 0 <= i < |s| => s[i].(explanation := explain(s[i]).value))
  }

  /** What `scoreCandidates` returns when every explanation call succeeds: min(3, n)
      candidates, each a scored input candidate with its explanation attached, in
      non-increasing total, none outranked by a candidate that was cut. */
  lemma {:induction false} TopFacts(s: seq<Candidate>, itemBudget: real, deadlineDays: Option<int>,
                                    llm: seq<ModelScore>, explain: Candidate -> Option<string>)
    requires var r := Ranked(s, itemBudget, deadlineDays, llm);
      |r| == |s| && forall i :: 0 <= i < Min(TopK, |s|) ==> explain(r[i]).Some?
    ensures var r := Ranked(s, itemBudget, deadlineDays, llm);
      var top := Explained(r[..Min(TopK, |s|)], explain);
      && |top| == Min(TopK, |s|)
      && (forall i :: 0 <= i < |top| ==>
            exists j :: 0 <= j < |s| && top[i].(explanation := s[j].explanation) == Scored(s[j], itemBudget, deadlineDays, llm))
      && (forall i, j :: 0 <= i < j < |top| ==> top[i].scores.total >= top[j].scores.total)
      && (forall i, j :: 0 <= i < |top| <= j < |r| ==> top[i].scores.total >= r[j].scores.total)
  {
    var r := Ranked(s, itemBudget, deadlineDays, llm);
    var n := Min(TopK, |s|);
    RankedOrigin(s, itemBudget, deadlineDays, llm);
    var top := Explained(r[..n], explain);
    ExplainedKeeps(r[..n], explain);
    forall i | 0 <= i < |top|
      ensures exists j :: 0 <= j < |s| && top[i].(explanation := s[j].explanation) == Scored(s[j], itemBudget, deadlineDays, llm)
    {
      var j :| 0 <= j < |s| && r[i] == Scored(s[j], itemBudget, deadlineDays, llm);
      assert top[i].(explanation := s[j].explanation) == r[i];
    }
  }

  /** The part of `RankedFacts` that `TopFacts` needs: length, origin and order. */
  lemma RankedOrigin(s: seq<Candidate>, itemBudget: real, deadlineDays: Option<int>, llm: seq<ModelScore>)
    ensures var r := Ranked(s, itemBudget, deadlineDays, llm);
      && |r| == |s|
      && (forall i :: 0 <= i < |r| ==> exists j :: 0 <= j < |s| && r[i] == Scored(s[j], itemBudget, deadlineDays, llm))
      && (forall i, j :: 0 <= i < j < |r| ==> r[i].scores.total >= r[j].scores.total)
  {
    RankedFacts(s, itemBudget, deadlineDays, llm);
  }

  /** Attaching explanations changes nothing but the explanation. */
  lemma ExplainedKeeps(s: seq<Candidate>, explain: Candidate -> Option<string>)
    requires forall i :: 0 <= i < |s| ==> explain(s[i]).Some?
    ensures var e := Explained(s, explain);
      |e| == |s| && forall i :: 0 <= i < |s| ==> e[i] == s[i].(explanation := e[i].explanation)
  {
  }

  /** What `scoreCandidates` returns for `s`: nothing for no candidates; a failure when
      the score call or one of the first three explanation calls throws; otherwise the
      first three ranked candidates with their explanations. */
  function ScoreOutcome(s: seq<Candidate>, itemBudget: real, deadlineDays: Option<int>,
                        llm: Option<seq<ModelScore>>, explain: Candidate -> Option<string>): (r: Result<seq<Candidate>>)
    ensures r.Ok? ==> |r.value| == Min(TopK, |s|)
    ensures s != [] && llm.None? ==> r.Err?
  {
    if s == [] then Ok([])
    else if llm.None? then Err("model scoring failed")
    else
      var ranked := Ranked(s, itemBudget, deadlineDays, llm.value);
      var n := Min(TopK, |s|);
      RankedFacts(s, itemBudget, deadlineDays, llm.value);
      if forall i :: 0 <= i < n ==> explain(ranked[i]).Some? then Ok(Explained(ranked[..n], explain))
      else Err("explanation failed")
  }

  /** `scoreCandidates` on the item's candidate array (sorted in place). The model's
      score reply is `llm` (None when the call threw) and `explain` gives the
      explanation text for one candidate (None when that call threw, which the source
      does not catch). Only the first three ranked candidates get an explanation. */
  method ScoreCandidates(itemBudget: real, a: array<Candidate>, deadlineDays: Option<int>,
                         llm: Option<seq<ModelScore>>, explain: Candidate -> Option<string>)
    returns (r: Result<seq<Candidate>>)
    modifies a
    ensures r == ScoreOutcome(old(a[..]), itemBudget, deadlineDays, llm, explain)
    ensures a.Length == 0 ==> r == Ok([]) && a[..] == old(a[..])
    ensures a.Length > 0 && llm.None? ==> r.Err?
    ensures a.Length > 0 && llm.Some? ==>
      var ranked := Ranked(old(a[..]), itemBudget, deadlineDays, llm.value);
      var n := Min(TopK, a.Length);
      && |ranked| == a.Length
      && (r.Ok? <==> forall i :: 0 <= i < n ==> explain(ranked[i]).Some?)
      && (r.Ok? ==> r.value == Explained(ranked[..n], explain) && a[..] == r.value + ranked[n..])
  {
    if a.Length == 0 {
      return Ok([]);
    }
    ghost var input := a[..];
    ApplyDeterministic(a, itemBudget, deadlineDays);
    if llm.None? {
      return Err("model scoring failed");
    }
    ApplyModel(a, llm.value);
    assert a[..] == ScoreAll(input, itemBudget, deadlineDays, llm.value);
    SortDescInPlace(a, TotalOf);
    r := AttachExplanations(a, Min(TopK, a.Length), explain);
  }

  method ApplyDeterministic(a: array<Candidate>, itemBudget: real, deadlineDays: Option<int>)
    modifies a
    ensures forall k :: 0 <= k < a.Length ==> a[k] == WithDeterministic(old(a[k]), itemBudget, deadlineDays)
  {
    var i := 0;
    while i < a.Length
      invariant 0 <= i <= a.Length
      invariant forall k :: 0 <= k < i ==> a[k] == WithDeterministic(old(a[k]), itemBudget, deadlineDays)
      invariant forall k :: i <= k < a.Length ==> a[k] == old(a[k])
    {
      a[i] := WithDeterministic(a[i], itemBudget, deadlineDays);
      i := i + 1;
    }
  }

  method ApplyModel(a: array<Candidate>, llm: seq<ModelScore>)
    modifies a
    ensures forall k :: 0 <= k < a.Length ==> a[k] == WithModel(old(a[k]), llm)
  {
    var i := 0;
    while i < a.Length
      invariant 0 <= i <= a.Length
      invariant forall k :: 0 <= k < i ==> a[k] == WithModel(old(a[k]), llm)
      invariant forall k :: i <= k < a.Length ==> a[k] == old(a[k])
    {
      a[i] := WithModel(a[i], llm);
      i := i + 1;
    }
  }

  /** The explanation loop over the first `n` candidates; it stops at the first
      explanation call that throws. */
  method AttachExplanations(a: array<Candidate>, n: nat, explain: Candidate -> Option<string>)
    returns (r: Result<seq<Candidate>>)
    requires n <= a.Length
    modifies a
    ensures r.Ok? <==> forall i :: 0 <= i < n ==> explain(old(a[i])).Some?
    ensures r.Err? ==> r == Err("explanation failed")
    ensures r.Ok? ==> r.value == Explained(old(a[..n]), explain) && a[..] == r.value + old(a[n..])
  {
    ghost var ranked := a[..];
    var i := 0;
    while i < n
      invariant 0 <= i <= n
      invariant forall k :: 0 <= k < i ==> explain(ranked[k]).Some?
      invariant forall k :: 0 <= k < i ==> a[k] == ranked[k].(explanation := explain(ranked[k]).value)
      invariant forall k :: i <= k < a.Length ==> a[k] == ranked[k]
    {
      var e := explain(a[i]);
      if e.None? {
        return Err("explanation failed");
      }
      a[i] := a[i].(explanation := e.value);
      i := i + 1;
    }
    r := Ok(a[..n]);
    assert a[..] == a[..n] + a[n..];
  }

  /** One entry of `allTopPicks`: an item's name and its best candidate. */
  datatype TopPick = TopPick(itemName: string, candidate: Candidate)

  /** The coherence pass's reply entry for one candidate. */
  datatype Adjustment = Adjustment(candidateId: string, coherence: real)

  /** A candidate after the coherence pass: with an adjustment its coherence is
      replaced and its total recomputed, otherwise it is untouched. */
  function AdjustCandidate(c: Candidate, adjustments: seq<Adjustment>): Candidate {
    match Find(adjustments, (a: Adjustment) => a.candidateId == c.id)
    case None => c
    case Some(adj) =>
      c.(scores := c.scores.(coherence := adj.coherence,
                             total := Total(c.scores.cost, c.scores.delivery, c.scores.preference, adj.coherence)))
  }

  function AdjustPick(p: TopPick, adjustments: seq<Adjustment>): TopPick {
    p.(candidate := AdjustCandidate(p.candidate, adjustments))
  }

  /** The coherence pass never touches cost, delivery, preference or anything but the
      scores; a pick without an adjustment is unchanged, and a pick with one takes the
      first matching coherence and a total recomputed with the same weights. */
  lemma AdjustFacts(c: Candidate, adjustments: seq<Adjustment>)
    ensures var r := AdjustCandidate(c, adjustments);
      && r.(scores := c.scores) == c
      && r.scores.cost == c.scores.cost && r.scores.delivery == c.scores.delivery
      && r.scores.preference == c.scores.preference
      && ((forall i :: 0 <= i < |adjustments| ==> adjustments[i].candidateId != c.id) ==> r == c)
      && (forall i :: (0 <= i < |adjustments| && adjustments[i].candidateId == c.id
                         && (forall j :: 0 <= j < i ==> adjustments[j].candidateId != c.id)) ==>
            r.scores.coherence == adjustments[i].coherence
            && r.scores.total == Total(c.scores.cost, c.scores.delivery, c.scores.preference, adjustments[i].coherence))
  {
    var p := (a: Adjustment) => a.candidateId == c.id;
    var m := Find(adjustments, p);
    forall i | 0 <= i < |adjustments| && adjustments[i].candidateId == c.id
                 && (forall j :: 0 <= j < i ==> adjustments[j].candidateId != c.id)
      ensures m == Some(adjustments[i])
    {
      assert p(adjustments[i]);
      var k :| 0 <= k < |adjustments| && adjustments[k] == m.value && p(adjustments[k])
               && forall j :: 0 <= j < k ==> !p(adjustments[j]);
      assert k == i;
    }
  }

  /** `runCoherencePass`, updating the picks in place. With at most one pick nothing
      happens; otherwise `adjustments` is the model's reply (None when the call threw). */
  method RunCoherencePass(picks: array<TopPick>, adjustments: Option<seq<Adjustment>>) returns (ok: bool)
    modifies picks
    ensures picks.Length <= 1 ==> ok && picks[..] == old(picks[..])
    ensures picks.Length > 1 ==> ok == adjustments.Some?
    ensures picks.Length > 1 && adjustments.None? ==> picks[..] == old(picks[..])
    ensures picks.Length > 1 && adjustments.Some? ==>
              forall i :: 0 <= i < picks.Length ==> picks[i] == AdjustPick(old(picks[i]), adjustments.value)
  {
    if picks.Length <= 1 {
      return true;
    }
    if adjustments.None? {
      return false;
    }
    var i := 0;
    while i < picks.Length
      invariant 0 <= i <= picks.Length
      invariant forall k :: 0 <= k < i ==> picks[k] == AdjustPick(old(picks[k]), adjustments.value)
      invariant forall k :: i <= k < picks.Length ==> picks[k] == old(picks[k])
    {
      picks[i] := AdjustPick(picks[i], adjustments.value);
      i := i + 1;
    }
    ok := true;
  }

  /** The worked cases: $50 against $100 scores 0.5 on cost and $120 scores 0;
      8 delivery days against a 5-day deadline score 0.4. */
  lemma Examples()
    ensures CostScore(50.0, 100.0) == 0.5 && CostScore(120.0, 100.0) == 0.0
    ensures CostScore(60.0, 80.0) == 0.25 && CostScore(95.0, 80.0) == 0.0
    ensures DeliveryScore(Some(3.0), Some(5)) == 1.0 && DeliveryScore(Some(8.0), Some(5)) == 0.4
    ensures DeliveryScore(Some(2.0), None) == 0.8 && DeliveryScore(None, Some(5)) == 0.5
  {
  }
}
