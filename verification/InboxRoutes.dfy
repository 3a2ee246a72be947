/** A card is offered exactly when its identity resolves, and then to the pane it shows. */
module InboxRoutes {
  import opened Base
  import opened Ordering
  import opened Federation
  import opened Inbox
  import opened InboxLaws

  /** The answering panes a scan from position `from` has still to meet. */
  ghost function Left(agents: map<PaneId, AgentState>, order: seq<PaneId>, from: nat, id: AgentId): set<PaneId>
    requires from <= |order|
  {
    set p | p in agents && AgentKey(agents[p]) == id && p !in Taken(order, from)
  }

  lemma LeftStep(agents: map<PaneId, AgentState>, order: seq<PaneId>, from: nat, id: AgentId)
    requires from < |order| && Taken(order, |order|) == agents.Keys && Increasing(order, IdLess)
    ensures order[from] in agents && order[from] !in Left(agents, order, from + 1, id)
    ensures Left(agents, order, from, id) ==
            Left(agents, order, from + 1, id) + if AgentKey(agents[order[from]]) == id then {order[from]} else {}
  {
    IdStep(order, from);
  }

  lemma {:induction false} MatchingCounts(agents: map<PaneId, AgentState>, order: seq<PaneId>, from: nat, id: AgentId)
    requires from <= |order| && Taken(order, |order|) == agents.Keys && Increasing(order, IdLess)
    ensures var matching := Matching(agents, order, from, id);
            && |matching| == |Left(agents, order, from, id)|
            && (matching != [] ==> exists p :: p in Left(agents, order, from, id) && matching[0] == agents[p])
    decreases |order| - from
  {
    if from == |order| {
      assert Left(agents, order, from, id) == {};
    } else {
      LeftStep(agents, order, from, id);
      MatchingCounts(agents, order, from + 1, id);
      assert AgentKey(agents[order[from]]) == id ==> order[from] in Left(agents, order, from, id);
    }
  }

  /** What a scan finds is counted by who answers, and the only one found is the only one who does. */
  lemma MatchingMeans(state: FederationState, id: AgentId)
    requires state.Qualified()
    ensures var agents := state.AgentsAt(id.Owner());
      var matching := Matching(agents, IdOrder(agents.Keys), 0, id);
      && |matching| == |Holders(state, id)|
      && (|matching| == 1 ==> Holders(state, id) == {matching[0].pane})
  {
    var agents := state.AgentsAt(id.Owner());
    var order := IdOrder(agents.Keys);
    HoldersAreLeft(state, id);
    MatchingCounts(agents, order, 0, id);
    var matching := Matching(agents, order, 0, id);
    if |matching| == 1 {
      var p :| p in Left(agents, order, 0, id) && matching[0] == agents[p];
      OnlyHolder(state, id, p);
    }
  }

  lemma HoldersAreLeft(state: FederationState, id: AgentId)
    ensures var agents := state.AgentsAt(id.Owner()); Left(agents, IdOrder(agents.Keys), 0, id) == Holders(state, id)
  {
  }

  lemma OnlyHolder(state: FederationState, id: AgentId, p: PaneId)
    requires state.Qualified() && |Holders(state, id)| == 1 && p in Holders(state, id)
    ensures Holders(state, id) == {state.AgentsAt(id.Owner())[p].pane}
  {
    OnlyMember(Holders(state, id), p);
    assert state.AgentsAt(id.Owner())[p].pane == p;
  }

  /** Resolution, in terms of who answers to the identity. */
  lemma ResolveMeans(id: AgentId, state: FederationState)
    requires state.Qualified()
    ensures Resolve(id, state).Ok? <==>
            && state.LiveAt(id.Owner())
            && |Holders(state, id)| == 1
            && Holders(state, id) <= state.targets[id.Owner()].snapshot.value.panes.Keys
    ensures Resolve(id, state).Ok? ==>
            Holders(state, id) == {Resolve(id, state).value.pane}
            && Resolve(id, state).value.generation == state.targets[id.Owner()].generation
  {
    MatchingMeans(state, id);
  }

  /** Why resolving is refused, whatever the reason. */
  lemma ResolveRefuses(id: AgentId, state: FederationState)
    requires state.Qualified()
    ensures var t := id.Owner();
      && (Resolve(id, state) == Err(UnknownTarget) <==> t !in state.targets)
      && (Resolve(id, state) == Err(TargetUnavailable) <==>
            t in state.targets && !(state.LiveAt(t) && state.targets[t].snapshot.Some?))
      && (state.LiveAt(t) && state.targets[t].snapshot.Some? ==>
            && (Resolve(id, state) == Err(AgentGone) <==> Holders(state, id) == {})
            && (Resolve(id, state) == Err(Ambiguous) <==> |Holders(state, id)| > 1)
            && (Resolve(id, state) == Err(PaneMissing) <==>
                  |Holders(state, id)| == 1 && !(Holders(state, id) <= state.targets[t].snapshot.value.panes.Keys)))
  {
    MatchingMeans(state, id);
  }

  lemma OnlyMember<T>(s: set<T>, x: T)
    requires |s| == 1 && x in s
    ensures s == {x}
  {
    assert |s - {x}| == 0;
  }

  /** The card of a seen identity is offered exactly when the identity resolves, and shows that pane. */
  lemma SeenCardRoutes(state: FederationState, id: AgentId, build: Builder)
    requires state.Qualified() && Faithful(build) && Holders(state, id) != {}
    ensures SeenCard(state, id, build).actionable <==> Resolve(id, state).Ok?
    ensures Resolve(id, state).Ok? ==> SeenCard(state, id, build).pane == Some(Resolve(id, state).value.pane)
  {
    IdLessTotal();
    ResolveMeans(id, state);
    var holders := Holders(state, id);
    var p := Greatest(holders, IdLess);
    assert state.AgentsAt(id.Owner())[p].pane == p;
    if |holders| == 1 {
      OnlyMember(holders, p);
    }
  }

  // ----- finding a card in the inbox -----

  lemma {:induction false} CardForJoined(a: seq<Card>, b: seq<Card>, id: AgentId)
    ensures CardFor(a + b, id) == if CardFor(a, id).Some? then CardFor(a, id) else CardFor(b, id)
  {
    if a == [] {
      assert a + b == b;
    } else {
      assert (a + b)[1..] == a[1..] + b;
      CardForJoined(a[1..], b, id);
    }
  }

  lemma {:induction false} CardForListed(order: seq<AgentId>, n: nat, tracked: map<AgentId, Tracked>, id: AgentId)
    requires n <= |order| && Taken(order, n) <= tracked.Keys
    requires forall x | x in tracked :: tracked[x].card.agent == x
    ensures CardFor(CardsOf(order, n, tracked), id) == if id in Taken(order, n) then Some(tracked[id].card) else None
  {
    if n > 0 {
      CardForListed(order, n - 1, tracked, id);
      CardForJoined(CardsOf(order, n - 1, tracked), [tracked[order[n - 1]].card], id);
    }
  }

  lemma CardForSection(tracked: map<AgentId, Tracked>, section: Section, id: AgentId)
    requires forall x | x in tracked :: tracked[x].card.agent == x
    ensures CardFor(SectionCards(tracked, section), id) ==
            if id in tracked && tracked[id].section == section then Some(tracked[id].card) else None
  {
    var order := SectionIds(tracked, section);
    CardForListed(order, |order|, tracked, id);
  }

  /** What an inbox shows for an identity: its tracked card, and only failing that a history card. */
  lemma CardForShown(tracked: map<AgentId, Tracked>, history: seq<Card>, id: AgentId)
    requires forall x | x in tracked :: tracked[x].card.agent == x
    ensures CardFor(Shown(tracked, history).Cards(), id) ==
            if id in tracked then Some(tracked[id].card) else CardFor(history, id)
  {
    var a, b, c := SectionCards(tracked, NeedsYou), SectionCards(tracked, Working), SectionCards(tracked, Recent);
    CardForSection(tracked, NeedsYou, id);
    CardForSection(tracked, Working, id);
    CardForSection(tracked, Recent, id);
    CardForJoined(a, b, id);
    CardForJoined(c, history, id);
    CardForJoined(a + b, c + history, id);
  }

  /**
   * From every valid index, for every identity: the published card exists and is offered exactly
   * when resolving the identity against the same federation succeeds, and the route is then the
   * card's own pane under its target's generation. Ambiguous identities, retained stale cards and
   * history cards whose identity has come back are all covered.
   */
  lemma OfferedExactlyWhenRoutable(index: Index, state: FederationState, build: Builder, id: AgentId)
    requires Valid(index) && state.Qualified() && Faithful(build)
    ensures var card := CardFor(Projected(index, state, build).published.value.Cards(), id);
      && (card.Some? && card.value.actionable <==> Resolve(id, state).Ok?)
      && (Resolve(id, state).Ok? ==>
            && card.value.pane.Some?
            && Resolve(id, state) == Ok(Route(card.value.pane.value, state.targets[id.Owner()].generation)))
  {
    var after := Projected(index, state, build);
    ProjectedValid(index, state, build);
    CardForShown(after.tracked, after.history, id);
    TrackedAfter(index, state, build, id);
    ResolveMeans(id, state);
    if Holders(state, id) != {} {
      SeenCardRoutes(state, id, build);
    }
  }
}
