/** What the inbox keeps at every reachable index, and why a card never offers a wrong route. */
module InboxLaws {
  import opened Ordering
  import opened Federation
  import opened Inbox

  /** Every entry is filed under its own identity and section, and ranks are distinct and below `next`. */
  ghost predicate WellRanked(queue: Queue) {
    && (forall id | id in queue.tracked ::
          && queue.tracked[id].card.agent == id
          && queue.tracked[id].section == queue.tracked[id].card.section
          && queue.tracked[id].rank < queue.next)
    && (forall a, b | a in queue.tracked && b in queue.tracked && a != b ::
          queue.tracked[a].rank != queue.tracked[b].rank)
  }

  ghost predicate IsHistory(card: Card) {
    card.activity == Gone && card.pane.None? && !card.actionable && !card.stale && card.section == Recent
  }

  ghost predicate Valid(index: Index) {
    && WellRanked(Queue(index.tracked, index.nextRank))
    && |index.history| <= MAX_HISTORY_CARDS
    && forall card | card in index.history :: IsHistory(card)
  }

  // ----- taking cards in -----

  ghost predicate FiledUnder(seen: map<AgentId, Card>) {
    forall id | id in seen :: seen[id].agent == id
  }

  lemma SeenFiled(state: FederationState, build: Builder)
    requires state.Qualified() && Faithful(build)
    ensures FiledUnder(Seen(state, build))
  {
    IdLessTotal();
    forall id | id in Seen(state, build) ensures Seen(state, build)[id].agent == id {
      var p := Greatest(Holders(state, id), IdLess);
      assert AgentKey(state.AgentsAt(id.Owner())[p]) == id;
    }
  }

  /** Whether taking `card` in would leave its rank alone. */
  ghost predicate Stays(tracked: map<AgentId, Tracked>, id: AgentId, card: Card) {
    id in tracked && tracked[id].section == card.section
  }

  lemma AdmitKeeps(queue: Queue, id: AgentId, card: Card)
    requires WellRanked(queue) && card.agent == id
    ensures WellRanked(Admit(queue, id, card))
  {
  }

  lemma {:induction false} AdmitAllKeeps(queue: Queue, seen: map<AgentId, Card>, order: seq<AgentId>, n: nat)
    requires n <= |order| && Taken(order, n) <= seen.Keys && WellRanked(queue) && FiledUnder(seen)
    ensures WellRanked(AdmitAll(queue, seen, order, n)) && queue.next <= AdmitAll(queue, seen, order, n).next
  {
    if n > 0 {
      AdmitAllKeeps(queue, seen, order, n - 1);
      AdmitKeeps(AdmitAll(queue, seen, order, n - 1), order[n - 1], seen[order[n - 1]]);
    }
  }

  /** Exactly the seen cards are taken in; a card keeps its rank exactly when it stays in its section. */
  lemma {:induction false} AdmitAllExactly(
    queue: Queue, seen: map<AgentId, Card>, order: seq<AgentId>, n: nat, id: AgentId)
    requires n <= |order| && Taken(order, n) <= seen.Keys && Increasing(order, IdLess)
    ensures var after := AdmitAll(queue, seen, order, n);
      && (id in after.tracked <==> id in queue.tracked || id in Taken(order, n))
      && (id in Taken(order, n) ==>
            && after.tracked[id].card == seen[id] && after.tracked[id].section == seen[id].section
            && if Stays(queue.tracked, id, seen[id]) then after.tracked[id].rank == queue.tracked[id].rank
               else queue.next <= after.tracked[id].rank < after.next)
      && (id !in Taken(order, n) && id in queue.tracked ==> after.tracked[id] == queue.tracked[id])
      && queue.next <= after.next
  {
    if n > 0 {
      IdStep(order, n - 1);
      AdmitAllExactly(queue, seen, order, n - 1, id);
    }
  }

  /** Of two cards that join in one projection, the smaller identity is ranked first. */
  lemma {:induction false} JoinersInOrder(
    queue: Queue, seen: map<AgentId, Card>, order: seq<AgentId>, n: nat, a: AgentId, b: AgentId)
    requires n <= |order| && Taken(order, n) <= seen.Keys && Increasing(order, IdLess)
    requires a in Taken(order, n) && b in Taken(order, n) && IdLess(a, b)
    requires !Stays(queue.tracked, a, seen[a]) && !Stays(queue.tracked, b, seen[b])
    ensures var after := AdmitAll(queue, seen, order, n); Rank(after.tracked, a) < Rank(after.tracked, b)
  {
    IdLessTotal();
    IdStep(order, n - 1);
    var before := AdmitAll(queue, seen, order, n - 1);
    AdmitAllExactly(queue, seen, order, n - 1, a);
    AdmitAllExactly(queue, seen, order, n - 1, b);
    if b != order[n - 1] {
      assert a != order[n - 1];
      JoinersInOrder(queue, seen, order, n - 1, a, b);
    }
  }

  // ----- what a projection leaves tracked -----

  lemma RetainedKeeps(index: Index, seen: map<AgentId, Card>, state: FederationState)
    requires Valid(index)
    ensures WellRanked(Queue(Retained(index.tracked, seen, state), index.nextRank))
  {
  }

  lemma RetainedAt(tracked: map<AgentId, Tracked>, seen: map<AgentId, Card>, state: FederationState, id: AgentId)
    ensures var kept := Retained(tracked, seen, state);
      && (id in kept <==> id in tracked && (id in seen || Unaskable(state, id.Owner())))
      && (id in kept ==> kept[id] == if id in seen then tracked[id] else Staled(tracked[id]))
  {
  }

  lemma ProjectedQueue(index: Index, state: FederationState, build: Builder) returns (kept: Queue, order: seq<AgentId>)
    requires state.Qualified()
    ensures var seen, after := Seen(state, build), Projected(index, state, build);
      && order == IdOrder(seen.Keys) && kept == Queue(Retained(index.tracked, seen, state), index.nextRank)
      && Queue(after.tracked, after.nextRank) == AdmitAll(kept, seen, order, |order|)
  {
    var seen := Seen(state, build);
    order, kept := IdOrder(seen.Keys), Queue(Retained(index.tracked, seen, state), index.nextRank);
  }

  /** The tracked map after a projection, entry by entry. */
  lemma TrackedAfter(index: Index, state: FederationState, build: Builder, id: AgentId)
    requires state.Qualified()
    ensures var seen, after := Seen(state, build), Projected(index, state, build);
      && (id in after.tracked <==> id in seen || (id in index.tracked && Unaskable(state, id.Owner())))
      && (id in seen ==>
            && after.tracked[id].card == seen[id] && after.tracked[id].section == seen[id].section
            && if Stays(index.tracked, id, seen[id]) then after.tracked[id].rank == index.tracked[id].rank
               else index.nextRank <= after.tracked[id].rank < after.nextRank)
      && (id in after.tracked && id !in seen ==>
            after.tracked[id]
            == index.tracked[id].(card := index.tracked[id].card.(stale := true, actionable := false)))
  {
    var seen := Seen(state, build);
    var kept, order := ProjectedQueue(index, state, build);
    RetainedAt(index.tracked, seen, state, id);
    AdmitAllExactly(kept, seen, order, |order|, id);
  }

  /** One projection's effect on a rank: kept by whoever stays in a section, fresh for whoever enters one. */
  lemma RankAfter(index: Index, state: FederationState, build: Builder, id: AgentId)
    requires Valid(index) && state.Qualified() && id in Projected(index, state, build).tracked
    ensures var after := Projected(index, state, build).tracked[id];
      if id in index.tracked && index.tracked[id].section == after.section
      then after.rank == index.tracked[id].rank < index.nextRank
      else index.nextRank <= after.rank
  {
    TrackedAfter(index, state, build, id);
  }

  lemma {:induction false} RetireAllHistory(
    history: seq<Card>, order: seq<AgentId>, n: nat, tracked: map<AgentId, Tracked>)
    requires n <= |order| && Taken(order, n) <= tracked.Keys
    requires |history| <= MAX_HISTORY_CARDS && forall card | card in history :: IsHistory(card)
    ensures var r := RetireAll(history, order, n, tracked);
            |r| <= MAX_HISTORY_CARDS && forall card | card in r :: IsHistory(card)
  {
    if n > 0 {
      RetireAllHistory(history, order, n - 1, tracked);
    }
  }

  /** Every projection of every federation leaves a valid index. */
  lemma ProjectedValid(index: Index, state: FederationState, build: Builder)
    requires Valid(index) && state.Qualified() && Faithful(build)
    ensures Valid(Projected(index, state, build))
  {
    var seen := Seen(state, build);
    var order, gone := IdOrder(seen.Keys), IdOrder(Vanishing(index.tracked, seen, state));
    SeenFiled(state, build);
    RetainedKeeps(index, seen, state);
    AdmitAllKeeps(Queue(Retained(index.tracked, seen, state), index.nextRank), seen, order, |order|);
    RetireAllHistory(index.history, gone, |gone|, index.tracked);
  }
}
