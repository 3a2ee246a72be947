/** What a shown card says: when it is marked stale, which section it is in, and what it tells of its agent. */
module InboxCards {
  import opened Base
  import opened Ordering
  import opened Federation
  import Attention
  import opened Inbox
  import opened InboxLaws
  import opened InboxOrder

  // ----- staleness -----

  lemma SeenCardStale(state: FederationState, id: AgentId, build: Builder)
    requires state.Qualified() && Faithful(build) && Holders(state, id) != {}
    ensures var card := SeenCard(state, id, build);
      id.Owner() in state.targets && (card.stale <==> !state.LiveAt(id.Owner())) && card.pane.Some?
  {
    IdLessTotal();
  }

  /** A kept card is marked stale and taken off offer; nothing else about it or its place changes. */
  lemma KeptIsMarked(index: Index, state: FederationState, build: Builder, id: AgentId)
    requires state.Qualified() && id in Projected(index, state, build).tracked && Holders(state, id) == {}
    ensures var after := Projected(index, state, build).tracked[id];
      && id in index.tracked && id.Owner() in state.targets && !state.LiveAt(id.Owner())
      && after.card.stale && !after.card.actionable
      && after.rank == index.tracked[id].rank && after.section == index.tracked[id].section
      && after.card.(stale := false, actionable := false)
         == index.tracked[id].card.(stale := false, actionable := false)
  {
    TrackedAfter(index, state, build, id);
  }

  lemma StaleAfter(index: Index, state: FederationState, build: Builder, id: AgentId)
    requires state.Qualified() && Faithful(build) && id in Projected(index, state, build).tracked
    ensures id.Owner() in state.targets
    ensures Projected(index, state, build).tracked[id].card.stale <==> !state.LiveAt(id.Owner())
  {
    TrackedAfter(index, state, build, id);
    if Holders(state, id) != {} {
      SeenCardStale(state, id, build);
    } else {
      KeptIsMarked(index, state, build, id);
    }
  }

  /** Over every run, a tracked card is marked stale exactly when its target is not live. */
  lemma StaleExactly(indices: seq<Index>, inputs: seq<Input>, n: nat, id: AgentId)
    requires Run(indices, inputs) && 0 < n < |indices| && id in indices[n].tracked
    ensures id.Owner() in inputs[n - 1].state.targets
    ensures indices[n].tracked[id].card.stale <==> !inputs[n - 1].state.LiveAt(id.Owner())
  {
    BuilderFaithful(inputs[n - 1].events, inputs[n - 1].local);
    StaleAfter(indices[n - 1], inputs[n - 1].state, inputs[n - 1].Build(), id);
  }

  lemma PaneAfter(index: Index, state: FederationState, build: Builder, id: AgentId)
    requires state.Qualified() && Faithful(build) && id in Projected(index, state, build).tracked
    ensures var card := Projected(index, state, build).tracked[id].card;
      card.pane.Some? || (id in index.tracked && card.pane == index.tracked[id].card.pane)
  {
    TrackedAfter(index, state, build, id);
    if Holders(state, id) != {} {
      SeenCardStale(state, id, build);
    }
  }

  ghost predicate WithoutPane(index: Index, id: AgentId) {
    id in index.tracked && index.tracked[id].card.pane.None?
  }

  lemma {:induction false} PaneStep(indices: seq<Index>, inputs: seq<Input>, n: nat, id: AgentId)
    requires Run(indices, inputs) && 0 < n < |indices|
    ensures WithoutPane(indices[n], id) ==> WithoutPane(indices[n - 1], id)
  {
    if id in indices[n].tracked {
      BuilderFaithful(inputs[n - 1].events, inputs[n - 1].local);
      PaneAfter(indices[n - 1], inputs[n - 1].state, inputs[n - 1].Build(), id);
    }
  }

  lemma {:induction false} NeverWithout(indices: seq<Index>, n: nat, id: AgentId)
    requires n < |indices| && !WithoutPane(indices[0], id)
    requires forall k | 0 < k <= n :: WithoutPane(indices[k], id) ==> WithoutPane(indices[k - 1], id)
    ensures !WithoutPane(indices[n], id)
  {
    if n > 0 {
      NeverWithout(indices, n - 1, id);
    }
  }

  lemma TrackedHasPane(indices: seq<Index>, inputs: seq<Input>, n: nat, id: AgentId)
    requires Run(indices, inputs) && n < |indices|
    ensures !WithoutPane(indices[n], id)
  {
    forall k | 0 < k <= n ensures WithoutPane(indices[k], id) ==> WithoutPane(indices[k - 1], id) {
      PaneStep(indices, inputs, k, id);
    }
    NeverWithout(indices, n, id);
  }

  // ----- what is published -----

  lemma {:induction false} ListedCard(order: seq<AgentId>, n: nat, tracked: map<AgentId, Tracked>, card: Card)
    requires n <= |order| && Taken(order, n) <= tracked.Keys && card in CardsOf(order, n, tracked)
    ensures exists id :: id in Taken(order, n) && card == tracked[id].card
  {
    if n > 0 && card in CardsOf(order, n - 1, tracked) {
      ListedCard(order, n - 1, tracked, card);
    }
  }

  lemma SectionCard(tracked: map<AgentId, Tracked>, section: Section, card: Card) returns (id: AgentId)
    requires card in SectionCards(tracked, section)
    ensures id in tracked && tracked[id].section == section && card == tracked[id].card
  {
    var order := SectionIds(tracked, section);
    ListedCard(order, |order|, tracked, card);
    id :| id in Taken(order, |order|) && card == tracked[id].card;
  }

  lemma {:induction false} TrackedIsListed(order: seq<AgentId>, n: nat, tracked: map<AgentId, Tracked>, id: AgentId)
    requires n <= |order| && Taken(order, n) <= tracked.Keys && id in Taken(order, n)
    ensures tracked[id].card in CardsOf(order, n, tracked)
  {
    if order[n - 1] != id {
      TrackedIsListed(order, n - 1, tracked, id);
    }
  }

  ghost predicate FiledIn(tracked: map<AgentId, Tracked>, section: Section, card: Card) {
    exists id :: id in tracked && tracked[id].section == section && tracked[id].card == card
  }

  lemma SectionHolds(tracked: map<AgentId, Tracked>, section: Section, card: Card)
    ensures card in SectionCards(tracked, section) <==> FiledIn(tracked, section, card)
  {
    if card in SectionCards(tracked, section) {
      var id := SectionCard(tracked, section, card);
    }
    if id :| id in tracked && tracked[id].section == section && tracked[id].card == card {
      var order := SectionIds(tracked, section);
      TrackedIsListed(order, |order|, tracked, id);
    }
  }

  /** An inbox shows each tracked card in the section it is filed in, and history among the recent, after the rest. */
  lemma ShownWhere(tracked: map<AgentId, Tracked>, history: seq<Card>, card: Card)
    ensures var shown := Shown(tracked, history);
      && (card in shown.needsYou <==> FiledIn(tracked, NeedsYou, card))
      && (card in shown.working <==> FiledIn(tracked, Working, card))
      && (card in shown.recent <==> FiledIn(tracked, Recent, card) || card in history)
      && |history| <= |shown.recent| && shown.recent[|shown.recent| - |history|..] == history
  {
    SectionHolds(tracked, NeedsYou, card);
    SectionHolds(tracked, Working, card);
    SectionHolds(tracked, Recent, card);
  }

  lemma PublishedIsShown(index: Index, state: FederationState, build: Builder)
    requires state.Qualified()
    ensures var after := Projected(index, state, build); after.published == Some(Shown(after.tracked, after.history))
  {
  }

  /** A shown card is a tracked one, filed in the section it is shown in, or a history card. */
  lemma ShownCard(tracked: map<AgentId, Tracked>, history: seq<Card>, card: Card) returns (found: Option<AgentId>)
    requires card in Shown(tracked, history).Cards()
    ensures found.Some? ==> found.value in tracked && card == tracked[found.value].card
    ensures found.None? ==> card in history
  {
    if card in SectionCards(tracked, NeedsYou) {
      var id := SectionCard(tracked, NeedsYou, card);
      found := Some(id);
    } else if card in SectionCards(tracked, Working) {
      var id := SectionCard(tracked, Working, card);
      found := Some(id);
    } else if card in SectionCards(tracked, Recent) {
      var id := SectionCard(tracked, Recent, card);
      found := Some(id);
    } else {
      found := None;
    }
  }

  /**
   * Of the cards an inbox shows, those with a pane are marked stale exactly when their target is not
   * live, and those without one are history: gone, among the recent, and never stale or offered.
   */
  lemma ShownStaleExactly(indices: seq<Index>, inputs: seq<Input>, n: nat, card: Card)
    requires Run(indices, inputs) && 0 < n < |indices|
    requires indices[n].published.Some? && card in indices[n].published.value.Cards()
    ensures if card.pane.Some? then card.stale <==> !inputs[n - 1].state.LiveAt(card.agent.Owner())
            else card.activity == Gone && card.section == Recent && !card.stale && !card.actionable
  {
    RunValid(indices, inputs, n);
    PublishedIsShown(indices[n - 1], inputs[n - 1].state, inputs[n - 1].Build());
    var found := ShownCard(indices[n].tracked, indices[n].history, card);
    if found.Some? {
      TrackedHasPane(indices, inputs, n, found.value);
      StaleExactly(indices, inputs, n, found.value);
    }
  }

  // ----- history -----

  /** A retired card still says everything its last tracked card did, but where it was and what it was doing. */
  lemma RetiredKeeps(card: Card)
    ensures var r := Retired(card);
      && IsHistory(r)
      && card == r.(pane := card.pane, activity := card.activity, section := card.section,
                    actionable := card.actionable, stale := card.stale)
  {
  }

  // ----- what a card tells of its agent -----

  ghost predicate Quiet(key: AgentId, local: LocalView) {
    key in local.marks
    && var marks := local.marks[key];
    marks.muted || (marks.snoozedUntil.Some? && local.now < marks.snoozedUntil.value)
  }

  /** A card is in its phase's section unless muted or snoozed; its activity is the phase either way. */
  lemma SectionMeans(
    agent: AgentState, snapshot: Snapshot, events: seq<Attention.Event>, live: bool, local: LocalView)
    ensures var card := BuildCard(agent, snapshot, events, live, local);
      var phase := Attention.AgentPhase(card.status, agent.interactiveReady == Some(true));
      && (card.section == NeedsYou <==> phase == Attention.Attention && !Quiet(AgentKey(agent), local))
      && (card.section == Working <==> phase == Attention.Working && !Quiet(AgentKey(agent), local))
      && (card.activity == NeedsInput <==> phase == Attention.Attention)
      && (card.activity == Busy <==> phase == Attention.Working)
      && (card.activity == Idle <==> phase == Attention.Idle)
      && (card.activity == Unknown <==> phase == Attention.Unknown)
  {
  }

  lemma {:induction false} HasUnreadMeans(events: seq<Attention.Event>, pane: PaneId)
    ensures HasUnread(events, pane) <==> exists i :: 0 <= i < |events| && events[i].unread && events[i].pane == pane
  {
    if events != [] {
      HasUnreadMeans(events[1..], pane);
      assert forall i | 0 < i < |events| :: events[i] == events[1..][i - 1];
    }
  }

  /** Event `i` is the last of this pane's. */
  ghost predicate LastOf(events: seq<Attention.Event>, pane: PaneId, i: nat) {
    i < |events| && events[i].pane == pane && forall j | i < j < |events| :: events[j].pane != pane
  }

  lemma {:induction false} LastChangeMeans(events: seq<Attention.Event>, pane: PaneId)
    ensures LastChange(events, pane).None? <==> forall i | 0 <= i < |events| :: events[i].pane != pane
    ensures forall i: nat | LastOf(events, pane, i) :: LastChange(events, pane) == Some(events[i].occurredAt)
  {
    if events != [] {
      var n := |events| - 1;
      LastChangeMeans(events[..n], pane);
      forall i: nat | LastOf(events, pane, i) ensures LastChange(events, pane) == Some(events[i].occurredAt) {
        if i < n {
          assert LastOf(events[..n], pane, i);
        }
      }
    }
  }

  /** A card is unread, and changed last, as the history says of its pane. */
  lemma HistoryMeans(
    agent: AgentState, snapshot: Snapshot, events: seq<Attention.Event>, live: bool, local: LocalView)
    ensures var card := BuildCard(agent, snapshot, events, live, local);
      && (card.unread <==> exists i :: 0 <= i < |events| && events[i].unread && events[i].pane == agent.pane)
      && (card.lastChange.None? <==> forall i | 0 <= i < |events| :: events[i].pane != agent.pane)
      && (forall i: nat | LastOf(events, agent.pane, i) :: card.lastChange == Some(events[i].occurredAt))
  {
    HasUnreadMeans(events, agent.pane);
    LastChangeMeans(events, agent.pane);
  }

  /** The first of several names that is there, or the last resort. */
  function FirstOf(names: seq<Option<string>>, fallback: string): string {
    if names == [] then fallback
    else if names[0].Some? then names[0].value
    else FirstOf(names[1..], fallback)
  }

  lemma FirstOfThree(a: Option<string>, b: Option<string>, c: Option<string>, fallback: string)
    ensures FirstOf([a, b, c], fallback)
         == if a.Some? then a.value else if b.Some? then b.value else if c.Some? then c.value else fallback
  {
    assert [c][1..] == [] && FirstOf([c], fallback) == if c.Some? then c.value else fallback;
    assert [b, c][1..] == [c] && FirstOf([b, c], fallback) == if b.Some? then b.value else FirstOf([c], fallback);
    assert [a, b, c][1..] == [b, c];
  }

  /** A card is titled by its agent's own name, else the pane's agent, else its caption, else its resource. */
  lemma TitleMeans(
    agent: AgentState, snapshot: Snapshot, events: seq<Attention.Event>, live: bool, local: LocalView)
    ensures var card, pane := BuildCard(agent, snapshot, events, live, local), Attention.PaneOf(agent, snapshot);
      var named := if pane.Some? then pane.value.agent else None;
      var labelled := if pane.Some? then pane.value.caption else None;
      card.title == Attention.BoundedMetadata(FirstOf([agent.name, named, labelled], agent.pane.resource), 128)
  {
    var pane := Attention.PaneOf(agent, snapshot);
    var named := if pane.Some? then pane.value.agent else None;
    var labelled := if pane.Some? then pane.value.caption else None;
    FirstOfThree(agent.name, named, labelled, agent.pane.resource);
    assert Attention.GetOr(Attention.Or(agent.name, Attention.Or(named, labelled)), agent.pane.resource)
        == FirstOf([agent.name, named, labelled], agent.pane.resource);
  }

  /** A card places its agent in the workspace and tab of its pane, by their captions where they have them. */
  lemma PlaceMeans(
    agent: AgentState, snapshot: Snapshot, events: seq<Attention.Event>, live: bool, local: LocalView)
    ensures var card, pane := BuildCard(agent, snapshot, events, live, local), Attention.PaneOf(agent, snapshot);
      var workspace, tab := Attention.WorkspaceLabel(pane, snapshot), TabLabel(pane, snapshot);
      && card.workspace == Attention.BoundedMetadata(workspace, 128)
      && card.tab == Attention.BoundedMetadata(tab, 128)
      && (pane.None? || pane.value.tab.None? ==> tab == "unassigned")
      && (pane.Some? && pane.value.tab.Some? ==>
            var t := pane.value.tab.value;
            if t in snapshot.tabs && snapshot.tabs[t].caption.Some? then Some(tab) == snapshot.tabs[t].caption
            else tab == t.resource)
      && (pane.Some? && pane.value.caption.Some? ==>
            card.paneLabel == Attention.BoundedMetadata(pane.value.caption.value, 128))
      && (pane.None? || pane.value.caption.None? ==>
            card.paneLabel == Attention.BoundedMetadata(agent.pane.resource, 128))
      && (card.provider.Some? <==> agent.agent.Some?)
      && (agent.agent.Some? ==> card.provider == Some(Attention.BoundedMetadata(agent.agent.value, 128)))
  {
  }

  /** An alias is shown while the title is the one it was given under, and otherwise suspended. */
  lemma AliasMeans(
    agent: AgentState, snapshot: Snapshot, events: seq<Attention.Event>, live: bool, local: LocalView)
    ensures var card, key := BuildCard(agent, snapshot, events, live, local), AgentKey(agent);
      && (card.alias.None? && !card.aliasSuspended <==> key !in local.aliases)
      && (card.alias.Some? ==> local.aliases[key] == Alias(card.alias.value, card.title))
      && (card.aliasSuspended ==> card.alias.None? && local.aliases[key].observed != card.title)
      && (card.favourite <==> key in local.favourites)
      && (key in local.marks ==> card.marks == local.marks[key])
      && (key !in local.marks ==> !card.marks.pinned && !card.marks.muted && card.marks.snoozedUntil.None?)
  {
  }
}
