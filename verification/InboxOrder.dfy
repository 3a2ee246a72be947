/** The order of the inbox over a whole run: who has waited longest in a section comes first. */
module InboxOrder {
  import opened Ordering
  import opened Federation
  import Attention
  import opened Inbox
  import opened InboxLaws

  datatype Input = Input(state: FederationState, events: seq<Attention.Event>, local: LocalView) {
    function Build(): Builder { CardBuilder(events, local) }
  }

  ghost predicate Run(indices: seq<Index>, inputs: seq<Input>) {
    && |indices| == |inputs| + 1
    && indices[0] == EMPTY
    && forall i | 0 <= i < |inputs| ::
         inputs[i].state.Qualified() && indices[i + 1] == Projected(indices[i], inputs[i].state, inputs[i].Build())
  }

  lemma {:induction false} RunValid(indices: seq<Index>, inputs: seq<Input>, n: nat)
    requires Run(indices, inputs) && n < |indices|
    ensures Valid(indices[n])
  {
    if n > 0 {
      RunValid(indices, inputs, n - 1);
      BuilderFaithful(inputs[n - 1].events, inputs[n - 1].local);
      ProjectedValid(indices[n - 1], inputs[n - 1].state, inputs[n - 1].Build());
    }
  }

  /** The projection that took a run to its step `n`. */
  lemma RunStep(indices: seq<Index>, inputs: seq<Input>, n: nat)
    returns (before: Index, state: FederationState, build: Builder)
    requires Run(indices, inputs) && 0 < n < |indices|
    ensures before == indices[n - 1] && Valid(before)
    ensures state.Qualified() && indices[n] == Projected(before, state, build)
  {
    RunValid(indices, inputs, n - 1);
    before, state, build := indices[n - 1], inputs[n - 1].state, inputs[n - 1].Build();
  }

  /** The step at which `id` last entered the section it is in after step `n`. */
  ghost function Entered(indices: seq<Index>, n: nat, id: AgentId): nat
    requires n < |indices| && id in indices[n].tracked
  {
    if n > 0 && id in indices[n - 1].tracked && indices[n - 1].tracked[id].section == indices[n].tracked[id].section
    then Entered(indices, n - 1, id) else n
  }

  lemma {:induction false} EnteredBy(indices: seq<Index>, n: nat, id: AgentId)
    requires n < |indices| && id in indices[n].tracked
    ensures Entered(indices, n, id) <= n
  {
    if n > 0 && id in indices[n - 1].tracked {
      if indices[n - 1].tracked[id].section == indices[n].tracked[id].section {
        EnteredBy(indices, n - 1, id);
      }
    }
  }

  /** Whether `id` was already in its section one step before. */
  ghost predicate Continues(indices: seq<Index>, n: nat, id: AgentId)
    requires 0 < n < |indices| && id in indices[n].tracked
  {
    id in indices[n - 1].tracked && indices[n - 1].tracked[id].section == indices[n].tracked[id].section
  }

  lemma EnteredStep(indices: seq<Index>, n: nat, id: AgentId)
    requires 0 < n < |indices| && id in indices[n].tracked
    ensures if Continues(indices, n, id) then Entered(indices, n, id) == Entered(indices, n - 1, id) < n
            else Entered(indices, n, id) == n
  {
    if Continues(indices, n, id) {
      EnteredBy(indices, n - 1, id);
    }
  }

  /** One step's effect on a rank: kept by whoever continues, fresh for whoever arrives. */
  lemma RankStep(indices: seq<Index>, inputs: seq<Input>, n: nat, id: AgentId)
    requires Run(indices, inputs) && 0 < n < |indices| && id in indices[n].tracked
    ensures if Continues(indices, n, id)
       then indices[n].tracked[id].rank == indices[n - 1].tracked[id].rank < indices[n - 1].nextRank
            else indices[n - 1].nextRank <= indices[n].tracked[id].rank
  {
    var before, state, build := RunStep(indices, inputs, n);
    RankAfter(before, state, build, id);
  }

  lemma ArrivalsInOrder(indices: seq<Index>, inputs: seq<Input>, n: nat, a: AgentId, b: AgentId)
    requires Run(indices, inputs) && 0 < n < |indices| && a in indices[n].tracked && b in indices[n].tracked
    requires !Continues(indices, n, a) && !Continues(indices, n, b) && IdLess(a, b)
    ensures indices[n].tracked[a].rank < indices[n].tracked[b].rank
  {
    var before, state, build := RunStep(indices, inputs, n);
    TrackedAfter(before, state, build, a);
    TrackedAfter(before, state, build, b);
    var seen := Seen(state, build);
    var order := IdOrder(seen.Keys);
    JoinersInOrder(Queue(Retained(before.tracked, seen, state), before.nextRank), seen, order, |order|, a, b);
  }

  /** Earlier entry first; within one step, smaller identity first. */
  ghost predicate EnteredBefore(indices: seq<Index>, n: nat, a: AgentId, b: AgentId)
    requires n < |indices| && a in indices[n].tracked && b in indices[n].tracked
  {
    || Entered(indices, n, a) < Entered(indices, n, b)
    || (Entered(indices, n, a) == Entered(indices, n, b) && IdLess(a, b))
  }

  lemma {:induction false} EntryGivesRank(indices: seq<Index>, inputs: seq<Input>, n: nat, a: AgentId, b: AgentId)
    requires Run(indices, inputs) && n < |indices| && a in indices[n].tracked && b in indices[n].tracked
    requires EnteredBefore(indices, n, a, b)
    ensures indices[n].tracked[a].rank < indices[n].tracked[b].rank
  {
    EnteredStep(indices, n, a);
    EnteredStep(indices, n, b);
    RankStep(indices, inputs, n, a);
    RankStep(indices, inputs, n, b);
    if Continues(indices, n, a) && Continues(indices, n, b) {
      EntryGivesRank(indices, inputs, n - 1, a, b);
    } else if !Continues(indices, n, a) && !Continues(indices, n, b) {
      ArrivalsInOrder(indices, inputs, n, a, b);
    }
  }

  /** Over every run, ranks order cards by the step they last entered their section. */
  lemma RankIsEntry(indices: seq<Index>, inputs: seq<Input>, n: nat, a: AgentId, b: AgentId)
    requires Run(indices, inputs) && n < |indices| && a in indices[n].tracked && b in indices[n].tracked && a != b
    ensures indices[n].tracked[a].rank < indices[n].tracked[b].rank <==> EnteredBefore(indices, n, a, b)
  {
    IdLessTotal();
    if EnteredBefore(indices, n, a, b) {
      EntryGivesRank(indices, inputs, n, a, b);
    } else {
      EntryGivesRank(indices, inputs, n, b, a);
    }
  }

  // ----- positions in the published lists -----

  lemma {:induction false} CardsOfAt(order: seq<AgentId>, n: nat, tracked: map<AgentId, Tracked>, i: nat)
    requires i < n <= |order| && Taken(order, n) <= tracked.Keys
    ensures order[i] in tracked && CardsOf(order, n, tracked)[i] == tracked[order[i]].card
  {
    if i < n - 1 {
      CardsOfAt(order, n - 1, tracked, i);
    }
  }

  /**
   * Each published section is pinned first, then ordered by the step at which each card last
   * entered that section, ties within one step by identity.
   */
  lemma SectionShownInOrder(indices: seq<Index>, inputs: seq<Input>, n: nat, section: Section, i: nat, j: nat)
    requires Run(indices, inputs) && n < |indices|
    requires i < j < |SectionCards(indices[n].tracked, section)|
    ensures var tracked := indices[n].tracked;
            var a, b := SectionCards(tracked, section)[i], SectionCards(tracked, section)[j];
            && a.agent in tracked && b.agent in tracked && a.section == b.section == section
            && (b.marks.pinned ==> a.marks.pinned)
            && (a.marks.pinned == b.marks.pinned ==> EnteredBefore(indices, n, a.agent, b.agent))
  {
    var tracked := indices[n].tracked;
    var order := SectionIds(tracked, section);
    RunValid(indices, inputs, n);
    CardsOfAt(order, |order|, tracked, i);
    CardsOfAt(order, |order|, tracked, j);
    TakenMember(order, |order|, order[i]);
    TakenMember(order, |order|, order[j]);
    InOrderTotal(tracked);
    IncreasingPair(order, InOrder(tracked), i, j);
    assert Earlier(tracked, order[i], order[j]);
    IdLessTotal();
    assert order[i] != order[j];
    RankIsEntry(indices, inputs, n, order[i], order[j]);
  }

  /**
   * Cards that stay in one section with the same pin never swap, and a card that arrives in a
   * section goes behind every card with its pin that was already there.
   */
  lemma NeverSwapped(indices: seq<Index>, inputs: seq<Input>, n: nat, a: AgentId, b: AgentId)
    requires Run(indices, inputs) && 0 < n < |indices| && a != b
    requires a in indices[n].tracked && b in indices[n].tracked && Continues(indices, n, a)
    requires Pinned(indices[n].tracked, a) == Pinned(indices[n].tracked, b)
    ensures !Continues(indices, n, b) ==> Earlier(indices[n].tracked, a, b)
    ensures Continues(indices, n, b)
            && Pinned(indices[n - 1].tracked, a) == Pinned(indices[n - 1].tracked, b) ==>
            (Earlier(indices[n].tracked, a, b) <==> Earlier(indices[n - 1].tracked, a, b))
  {
    RankStep(indices, inputs, n, a);
    RankStep(indices, inputs, n, b);
  }
}
