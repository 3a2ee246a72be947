/** No agent is lost by a projection, a repeated one changes nothing, and the revision counts what does change. */
module InboxConservation {
  import opened Base
  import opened Ordering
  import opened Federation
  import opened Inbox
  import opened InboxLaws
  import opened InboxOrder

  // ----- history -----

  /** The retired cards of the first `n` of `order`, last retired first. */
  function RetiredCards(order: seq<AgentId>, n: nat, tracked: map<AgentId, Tracked>): (r: seq<Card>)
    requires n <= |order| && Taken(order, n) <= tracked.Keys
    ensures |r| == n
  {
    if n == 0 then [] else [Retired(tracked[order[n - 1]].card)] + RetiredCards(order, n - 1, tracked)
  }

  function Newest(cards: seq<Card>): seq<Card> {
    if |cards| > MAX_HISTORY_CARDS then cards[..MAX_HISTORY_CARDS] else cards
  }

  lemma NewestAbsorbs(front: seq<Card>, back: seq<Card>)
    ensures Newest(front + Newest(back)) == Newest(front + back)
  {
  }

  lemma {:induction false} RetireAllIsNewest(
    history: seq<Card>, order: seq<AgentId>, n: nat, tracked: map<AgentId, Tracked>)
    requires n <= |order| && Taken(order, n) <= tracked.Keys && |history| <= MAX_HISTORY_CARDS
    ensures RetireAll(history, order, n, tracked) == Newest(RetiredCards(order, n, tracked) + history)
  {
    if n == 0 {
      assert RetiredCards(order, 0, tracked) + history == history;
    } else {
      RetireAllIsNewest(history, order, n - 1, tracked);
      var one, rest := [Retired(tracked[order[n - 1]].card)], RetiredCards(order, n - 1, tracked);
      NewestAbsorbs(one, rest + history);
      assert one + (rest + history) == one + rest + history;
    }
  }

  lemma {:induction false} RetiredCardsAre(order: seq<AgentId>, n: nat, tracked: map<AgentId, Tracked>)
    requires n <= |order| && Taken(order, n) <= tracked.Keys
    ensures forall card :: card in RetiredCards(order, n, tracked) <==>
              exists id :: id in Taken(order, n) && card == Retired(tracked[id].card)
  {
    if n > 0 {
      RetiredCardsAre(order, n - 1, tracked);
    }
  }

  /** The cards a projection retires, newest first. */
  ghost function RetiredBy(index: Index, state: FederationState, build: Builder): seq<Card>
    requires state.Qualified()
  {
    var gone := IdOrder(Vanishing(index.tracked, Seen(state, build), state));
    RetiredCards(gone, |gone|, index.tracked)
  }

  /**
   * Conservation. A tracked agent is shown again if its target lists it; kept as it was, marked
   * stale, if its target is present but not live; retired if its target is live and does not
   * list it; and dropped without history only when its target has left the federation.
   */
  lemma Conserved(index: Index, state: FederationState, build: Builder, id: AgentId)
    requires Valid(index) && state.Qualified() && Faithful(build) && id in index.tracked
    ensures var after := Projected(index, state, build);
      && (Holders(state, id) != {} ==> id in after.tracked && after.tracked[id].card == SeenCard(state, id, build))
      && (Holders(state, id) == {} && Unaskable(state, id.Owner()) ==>
            && id in after.tracked && after.tracked[id].card.stale && !after.tracked[id].card.actionable
            && after.tracked[id].(card := index.tracked[id].card) == index.tracked[id]
            && after.tracked[id].card
               == index.tracked[id].card.(stale := true, actionable := false))
      && (Holders(state, id) == {} && state.LiveAt(id.Owner()) ==> id !in after.tracked)
      && (Holders(state, id) == {} && id.Owner() !in state.targets ==> id !in after.tracked)
    ensures Retired(index.tracked[id].card) in RetiredBy(index, state, build)
            <==> Holders(state, id) == {} && state.LiveAt(id.Owner())
  {
    TrackedAfter(index, state, build, id);
    var gone := IdOrder(Vanishing(index.tracked, Seen(state, build), state));
    RetiredCardsAre(gone, |gone|, index.tracked);
    forall other | other in Taken(gone, |gone|) && Retired(index.tracked[id].card) == Retired(index.tracked[other].card)
      ensures other == id
    {
      assert Retired(index.tracked[id].card).agent == id && Retired(index.tracked[other].card).agent == other;
    }
  }

  /** History is exactly the retired cards, newest first, in front of what was there, cut to 64. */
  lemma HistoryExactly(index: Index, state: FederationState, build: Builder)
    requires Valid(index) && state.Qualified()
    ensures Projected(index, state, build).history == Newest(RetiredBy(index, state, build) + index.history)
  {
    var gone := IdOrder(Vanishing(index.tracked, Seen(state, build), state));
    RetireAllIsNewest(index.history, gone, |gone|, index.tracked);
  }

  // ----- projecting the same inputs again -----

  lemma {:induction false} NothingToAdmit(queue: Queue, seen: map<AgentId, Card>, order: seq<AgentId>, n: nat)
    requires n <= |order| && Taken(order, n) <= seen.Keys
    requires forall id | id in Taken(order, n) ::
               id in queue.tracked && queue.tracked[id].section == seen[id].section
               && queue.tracked[id].card == seen[id]
    ensures AdmitAll(queue, seen, order, n) == queue
  {
    if n > 0 {
      NothingToAdmit(queue, seen, order, n - 1);
      var id := order[n - 1];
      assert queue.tracked[id := queue.tracked[id].(card := seen[id])] == queue.tracked;
    }
  }

  /** An entry a second sweep would leave as it is. */
  ghost predicate Settled(id: AgentId, entry: Tracked, seen: map<AgentId, Card>, state: FederationState) {
    id in seen || (Unaskable(state, id.Owner()) && Staled(entry) == entry)
  }

  lemma SettledRetained(tracked: map<AgentId, Tracked>, seen: map<AgentId, Card>, state: FederationState)
    requires forall id | id in tracked :: Settled(id, tracked[id], seen, state)
    ensures Retained(tracked, seen, state) == tracked
    ensures Vanishing(tracked, seen, state) == {}
  {
  }

  lemma RetainedTwice(index: Index, state: FederationState, build: Builder)
    requires state.Qualified()
    ensures var seen, after := Seen(state, build), Projected(index, state, build);
            Retained(after.tracked, seen, state) == after.tracked && Vanishing(after.tracked, seen, state) == {}
  {
    var seen, tracked := Seen(state, build), Projected(index, state, build).tracked;
    forall id | id in tracked ensures Settled(id, tracked[id], seen, state) {
      TrackedAfter(index, state, build, id);
    }
    SettledRetained(tracked, seen, state);
  }

  /** Two projections of the same inputs publish the same inbox under the same revision. */
  lemma ProjectedTwice(index: Index, state: FederationState, build: Builder)
    requires state.Qualified()
    ensures Projected(Projected(index, state, build), state, build) == Projected(index, state, build)
  {
    var seen, after := Seen(state, build), Projected(index, state, build);
    var order := IdOrder(seen.Keys);
    RetainedTwice(index, state, build);
    forall id | id in seen
      ensures id in after.tracked
      ensures after.tracked[id].section == seen[id].section && after.tracked[id].card == seen[id]
    {
      TrackedAfter(index, state, build, id);
    }
    NothingToAdmit(Queue(after.tracked, after.nextRank), seen, order, |order|);
    assert IdOrder(Vanishing(after.tracked, seen, state)) == [];
    assert HistoryAfter(after, state, build) == after.history;
  }

  // ----- revisions over a run -----

  /** One projection moves the revision by one, exactly when what is published differs from what was. */
  lemma RevisionCountsChanges(index: Index, state: FederationState, build: Builder)
    requires state.Qualified()
    ensures var after := Projected(index, state, build);
            && index.revision <= after.revision <= index.revision + 1
            && (after.revision == index.revision <==> after.published == index.published)
            && after.published == Some(Shown(after.tracked, after.history))
  {
  }

  /** How often the published inbox changed between two steps. */
  ghost function ChangesBetween(indices: seq<Index>, m: nat, n: nat): nat
    requires m <= n < |indices|
  {
    if m == n then 0
    else ChangesBetween(indices, m, n - 1) + if indices[n].published == indices[n - 1].published then 0 else 1
  }

  lemma {:induction false} RevisionStep(indices: seq<Index>, inputs: seq<Input>, n: nat)
    requires Run(indices, inputs) && 0 < n < |indices|
    ensures indices[n].revision
         == indices[n - 1].revision + if indices[n].published == indices[n - 1].published then 0 else 1
  {
    var before, state, build := RunStep(indices, inputs, n);
    RevisionCountsChanges(before, state, build);
  }

  /** Over every run, the revision has moved by how often the published inbox changed. */
  lemma {:induction false} RevisionsCountChanges(indices: seq<Index>, inputs: seq<Input>, m: nat, n: nat)
    requires Run(indices, inputs) && m <= n < |indices|
    ensures indices[n].revision == indices[m].revision + ChangesBetween(indices, m, n)
  {
    if m < n {
      RevisionsCountChanges(indices, inputs, m, n - 1);
      RevisionStep(indices, inputs, n);
    }
  }

  lemma {:induction false} NoChangesMeansSame(indices: seq<Index>, m: nat, n: nat)
    requires m <= n < |indices|
    ensures ChangesBetween(indices, m, n) == 0
       <==> forall k | m <= k <= n :: indices[k].published == indices[m].published
  {
    if m < n {
      NoChangesMeansSame(indices, m, n - 1);
    }
  }

  /**
   * A client may skip a repaint: two steps of a run have one revision exactly when the same inbox was
   * published at both of them and at every step between.
   */
  lemma EqualRevisionsShowTheSame(indices: seq<Index>, inputs: seq<Input>, m: nat, n: nat)
    requires Run(indices, inputs) && m <= n < |indices|
    ensures indices[m].revision == indices[n].revision
       <==> forall k | m <= k <= n :: indices[k].published == indices[m].published
  {
    RevisionsCountChanges(indices, inputs, m, n);
    NoChangesMeansSame(indices, m, n);
  }
}
