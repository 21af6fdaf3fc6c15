/**
The guards that stop a cycle before anything is written.
*/
module Safety {
  import opened Models

  const MAX_CARD: CardId := 65535

  datatype Reason =
    | UnmappedTypes | DuplicateCard | InvalidCard
    | MassDeactivation | MassAddition | MassPolicyChange
  datatype Verdict = Clear | Halted(reason: Reason)

  /** The members whose card this difference writes: only these can collide. */
  function Writers(d: Diff): seq<ResolvedMember> {
    d.toAdd + seq(|d.toUpdateCredential|, i requires 0 <= i < |d.toUpdateCredential| => d.toUpdateCredential[i].member)
  }

  /** No two written cards are the same. */
  ghost predicate DistinctCards(d: Diff) {
    var ws := Writers(d);
    forall i, j :: 0 <= i < j < |ws| && ws[i].card.Some? ==> ws[i].card != ws[j].card
  }

  /** Every written card fits in a Wiegand card number. */
  ghost predicate CardsInRange(d: Diff) {
    forall w :: w in Writers(d) && w.card.Some? ==> 0 <= w.card.value <= MAX_CARD
  }

  predicate GuardsEngage(baseline: nat, t: Thresholds) {
    baseline > 0 && baseline >= t.baselineFloor
  }

  predicate Exceeds(count: nat, baseline: nat, pct: real) {
    baseline > 0 && count as real / baseline as real > pct
  }

  ghost predicate TooManyChanges(d: Diff, baseline: nat, t: Thresholds) {
    GuardsEngage(baseline, t) &&
    (Exceeds(|d.toDeactivate|, baseline, t.deactivatePct) ||
     Exceeds(|d.toAdd|, baseline, t.addPct) ||
     Exceeds(|d.toUpdatePolicy|, baseline, t.policyPct))
  }

  /** The cards to be written, each with the writer it came from. */
  method CollectCards(ws: seq<ResolvedMember>) returns (cards: seq<CardId>, ghost from: seq<nat>)
    ensures |from| == |cards|
    ensures forall a :: 0 <= a < |from| ==> from[a] < |ws| && ws[from[a]].card == Some(cards[a])
    ensures forall a, b :: 0 <= a < b < |from| ==> from[a] < from[b]
    ensures forall j :: 0 <= j < |ws| && ws[j].card.Some? ==> j in from
  {
    cards, from := [], [];
    for i := 0 to |ws|
      invariant |from| == |cards|
      invariant forall a :: 0 <= a < |from| ==> from[a] < i && ws[from[a]].card == Some(cards[a])
      invariant forall a, b :: 0 <= a < b < |from| ==> from[a] < from[b]
      invariant forall j :: 0 <= j < i && ws[j].card.Some? ==> j in from
    {
      if ws[i].card.Some? {
        cards := cards + [ws[i].card.value];
        from := from + [i];
      }
    }
  }

  method HasDuplicate(cards: seq<CardId>) returns (dup: bool)
    ensures dup <==> !NoDup(cards)
  {
    var seen: set<CardId> := {};
    for i := 0 to |cards|
      invariant forall c :: c in seen <==> c in cards[..i]
      invariant forall a, b :: 0 <= a < b < i ==> cards[a] != cards[b]
    {
      if cards[i] in seen {
        var a :| 0 <= a < i && cards[..i][a] == cards[i];
        assert cards[a] == cards[i];
        return true;
      }
      seen := seen + {cards[i]};
    }
    return false;
  }

  method HasOutOfRange(cards: seq<CardId>) returns (bad: bool)
    ensures bad <==> exists a :: 0 <= a < |cards| && !(0 <= cards[a] <= MAX_CARD)
  {
    for i := 0 to |cards|
      invariant forall a :: 0 <= a < i ==> 0 <= cards[a] <= MAX_CARD
    {
      if cards[i] < 0 || cards[i] > MAX_CARD {
        return true;
      }
    }
    return false;
  }

  /** Collecting the cards loses nothing the two card guards look at. */
  lemma CollectedCards(d: Diff, cards: seq<CardId>, from: seq<nat>)
    requires |from| == |cards|
    requires forall a :: 0 <= a < |from| ==> from[a] < |Writers(d)| && Writers(d)[from[a]].card == Some(cards[a])
    requires forall a, b :: 0 <= a < b < |from| ==> from[a] < from[b]
    requires forall j :: 0 <= j < |Writers(d)| && Writers(d)[j].card.Some? ==> j in from
    ensures NoDup(cards) <==> DistinctCards(d)
    ensures CardsInRange(d) <==> forall a :: 0 <= a < |cards| ==> 0 <= cards[a] <= MAX_CARD
  {
  }

  /** Guards are tried in a fixed order and the first that fires names the halt. */
  ghost function FirstReason(d: Diff, baseline: nat, t: Thresholds): Reason {
    if d.unmapped != [] then UnmappedTypes
    else if !DistinctCards(d) then DuplicateCard
    else if !CardsInRange(d) then InvalidCard
    else if Exceeds(|d.toDeactivate|, baseline, t.deactivatePct) then MassDeactivation
    else if Exceeds(|d.toAdd|, baseline, t.addPct) then MassAddition
    else MassPolicyChange
  }

  method Check(d: Diff, baseline: nat, t: Thresholds) returns (v: Verdict)
    ensures v.Clear? <==>
              d.unmapped == [] && DistinctCards(d) && CardsInRange(d) && !TooManyChanges(d, baseline, t)
    ensures v.Halted? ==> v.reason == FirstReason(d, baseline, t)
  {
    if d.unmapped != [] {
      return Halted(UnmappedTypes);
    }
    var cards, from := CollectCards(Writers(d));
    CollectedCards(d, cards, from);
    var dup := HasDuplicate(cards);
    if dup {
      return Halted(DuplicateCard);
    }
    var bad := HasOutOfRange(cards);
    if bad {
      return Halted(InvalidCard);
    }
    if GuardsEngage(baseline, t) {
      if Exceeds(|d.toDeactivate|, baseline, t.deactivatePct) {
        return Halted(MassDeactivation);
      }
      if Exceeds(|d.toAdd|, baseline, t.addPct) {
        return Halted(MassAddition);
      }
      if Exceeds(|d.toUpdatePolicy|, baseline, t.policyPct) {
        return Halted(MassPolicyChange);
      }
    }
    return Clear;
  }
}
