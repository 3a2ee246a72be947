/** The agent inbox: what one projection of a federation does to the index, as functions. */
module Inbox {
  import opened Base
  import opened Ordering
  import opened Federation
  import Attention

  const MAX_HISTORY_CARDS: nat := 64
  const MAX_LABEL_CHARACTERS: nat := 128

  datatype Section = NeedsYou | Working | Recent

  datatype Activity = NeedsInput | Busy | Idle | Unknown | Gone

  datatype Marks = Marks(pinned: bool, muted: bool, snoozedUntil: Option<nat>) {
    predicate QuietAt(now: nat) {
      muted || (snoozedUntil.Some? && snoozedUntil.value > now)
    }
  }

  datatype Alias = Alias(name: string, observed: string)

  /** Marks, aliases, favourites and the clock: all of a card that no snapshot holds. */
  datatype LocalView = LocalView(
    marks: map<AgentId, Marks>, aliases: map<AgentId, Alias>, favourites: set<AgentId>, now: nat)

  datatype Card = Card(
    agent: AgentId, pane: Option<PaneId>, title: string, workspace: string, tab: string, paneLabel: string,
    provider: Option<string>, activity: Activity, status: string, section: Section, unread: bool, stale: bool,
    actionable: bool, lastChange: Option<nat>, marks: Marks, alias: Option<string>,
    aliasSuspended: bool, favourite: bool)

  // ----- one card -----

  function ActivityOf(phase: Attention.Phase): Activity {
    match phase
    case Attention => NeedsInput
    case Working => Busy
    case Idle => Idle
    case Unknown => Unknown
  }

  function SectionOf(activity: Activity, quiet: bool): Section {
    if quiet then Recent
    else match activity
      case NeedsInput => NeedsYou
      case Busy => Working
      case _ => Recent
  }

  function Label(name: Option<string>, fallback: string): string {
    Attention.BoundedMetadata(Attention.GetOr(name, fallback), MAX_LABEL_CHARACTERS)
  }

  function TabLabel(pane: Option<PaneState>, snapshot: Snapshot): string {
    if pane.None? || pane.value.tab.None? then "unassigned"
    else
      var tab := pane.value.tab.value;
      if tab in snapshot.tabs then Attention.GetOr(snapshot.tabs[tab].caption, tab.resource) else tab.resource
  }

  predicate HasUnread(events: seq<Attention.Event>, pane: PaneId) {
    events != [] && ((events[0].unread && events[0].pane == pane) || HasUnread(events[1..], pane))
  }

  /** When this pane last changed: its newest event. */
  function LastChange(events: seq<Attention.Event>, pane: PaneId): Option<nat> {
    if events == [] then None
    else
      var last := events[|events| - 1];
      if last.pane == pane then Some(last.occurredAt) else LastChange(events[..|events| - 1], pane)
  }

  function BuildCard(
    agent: AgentState, snapshot: Snapshot, events: seq<Attention.Event>, live: bool, local: LocalView): Card
  {
    var pane := Attention.PaneOf(agent, snapshot);
    var status := Attention.StatusWord(agent, snapshot);
    var activity := ActivityOf(Attention.AgentPhase(status, Attention.GetOr(agent.interactiveReady, false)));
    var key := AgentKey(agent);
    var marks := if key in local.marks then local.marks[key] else Marks(false, false, None);
    var title := Label(
      Attention.Or(agent.name, Attention.Or(if pane.Some? then pane.value.agent else None,
                                            if pane.Some? then pane.value.caption else None)), agent.pane.resource);
    Card(
      key, Some(agent.pane), title,
      Label(None, Attention.WorkspaceLabel(pane, snapshot)), Label(None, TabLabel(pane, snapshot)),
      Label(if pane.Some? then pane.value.caption else None, agent.pane.resource),
      if agent.agent.Some? then Some(Label(agent.agent, "")) else None,
      activity, status, SectionOf(activity, marks.QuietAt(local.now)), HasUnread(events, agent.pane),
      !live, live && pane.Some?, LastChange(events, agent.pane), marks,
      if key in local.aliases && local.aliases[key].observed == title then Some(local.aliases[key].name) else None,
      key in local.aliases && local.aliases[key].observed != title,
      key in local.favourites)
  }

  /** How a card is built, with the attention history and the local view already supplied. */
  type Builder = (AgentState, Snapshot, bool) -> Card

  function CardBuilder(events: seq<Attention.Event>, local: LocalView): Builder {
    (agent, snapshot, live) => BuildCard(agent, snapshot, events, live, local)
  }

  /** The fields of a card that decide whether it is a route. */
  ghost predicate Faithful(build: Builder) {
    forall agent, snapshot, live :: var card := build(agent, snapshot, live);
      && card.agent == AgentKey(agent)
      && card.pane == Some(agent.pane)
      && card.stale == !live
      && card.actionable == (live && agent.pane in snapshot.panes)
  }

  lemma BuilderFaithful(events: seq<Attention.Event>, local: LocalView)
    ensures Faithful(CardBuilder(events, local))
  {
  }

  // ----- what a federation shows -----

  /** The panes of `id`'s own target whose agent answers to `id`. */
  function Holders(state: FederationState, id: AgentId): set<PaneId> {
    var agents := state.AgentsAt(id.Owner());
    set p | p in agents && AgentKey(agents[p]) == id
  }

  function SeenIds(state: FederationState): (r: set<AgentId>)
    requires state.Qualified()
    ensures forall id :: id in r <==> Holders(state, id) != {}
  {
    var r := set t, p | t in state.targets && p in state.AgentsAt(t) :: AgentKey(state.AgentsAt(t)[p]);
    forall id ensures id in r <==> Holders(state, id) != {} {
      if p :| p in Holders(state, id) {
        assert AgentKey(state.AgentsAt(id.Owner())[p]) in r;
      }
      if id in r {
        var t, p :| t in state.targets && p in state.AgentsAt(t) && AgentKey(state.AgentsAt(t)[p]) == id;
        assert p in Holders(state, id);
      }
    }
    r
  }

  /** The card of the last pane that answers to `id`, offered only when no other pane does. */
  function SeenCard(state: FederationState, id: AgentId, build: Builder): Card
    requires Holders(state, id) != {}
  {
    IdLessTotal();
    var holders := Holders(state, id);
    var target := state.targets[id.Owner()];
    var card := build(target.snapshot.value.agents[Greatest(holders, IdLess)],
        target.snapshot.value, target.connection == Live);
    if |holders| == 1 then card else card.(actionable := false)
  }

  function Seen(state: FederationState, build: Builder): map<AgentId, Card>
    requires state.Qualified()
  {
    map id | id in SeenIds(state) :: SeenCard(state, id, build)
  }

  // ----- the index -----

  datatype Tracked = Tracked(rank: nat, section: Section, card: Card)

  datatype Published = Published(needsYou: seq<Card>, working: seq<Card>, recent: seq<Card>) {
    function Cards(): seq<Card> { needsYou + working + recent }
  }

  datatype Index = Index(
    tracked: map<AgentId, Tracked>, history: seq<Card>, nextRank: nat, revision: nat, published: Option<Published>)

  const EMPTY: Index := Index(map[], [], 0, 0, None)

  /** Present, and in a state that says nothing about the agents on the far side. */
  predicate Unaskable(state: FederationState, t: TargetSession) {
    t in state.targets && state.targets[t].connection != Live
  }

  function Vanishing(tracked: map<AgentId, Tracked>, seen: map<AgentId, Card>, state: FederationState): set<AgentId> {
    set id | id in tracked && id !in seen && state.LiveAt(id.Owner())
  }

  function Retired(card: Card): Card {
    card.(pane := None, activity := Gone, section := Recent, actionable := false, stale := false)
  }

  function Retire(history: seq<Card>, card: Card): (r: seq<Card>)
    ensures |r| <= MAX_HISTORY_CARDS
  {
    var longer := [Retired(card)] + history;
    if |longer| > MAX_HISTORY_CARDS then longer[..MAX_HISTORY_CARDS] else longer
  }

  /** The history after retiring the first `n` of `order`, one at a time. */
  function RetireAll(history: seq<Card>, order: seq<AgentId>, n: nat, tracked: map<AgentId, Tracked>): seq<Card>
    requires n <= |order| && Taken(order, n) <= tracked.Keys
  {
    if n == 0 then history else Retire(RetireAll(history, order, n - 1, tracked), tracked[order[n - 1]].card)
  }

  function Staled(tracked: Tracked): Tracked {
    tracked.(card := tracked.card.(stale := true, actionable := false))
  }

  /** What stays tracked before the new cards are taken in. */
  function Retained(
    tracked: map<AgentId, Tracked>, seen: map<AgentId, Card>, state: FederationState): map<AgentId, Tracked> {
    map id | id in tracked && (id in seen || Unaskable(state, id.Owner())) ::
      if id in seen then tracked[id] else Staled(tracked[id])
  }

  datatype Queue = Queue(tracked: map<AgentId, Tracked>, next: nat)

  /** A card that stays in its section keeps its rank; any other joins behind everything ranked so far. */
  function Admit(queue: Queue, id: AgentId, card: Card): Queue {
    if id in queue.tracked && queue.tracked[id].section == card.section
    then queue.(tracked := queue.tracked[id := queue.tracked[id].(card := card)])
    else Queue(queue.tracked[id := Tracked(queue.next, card.section, card)], queue.next + 1)
  }

  function AdmitAll(queue: Queue, seen: map<AgentId, Card>, order: seq<AgentId>, n: nat): Queue
    requires n <= |order| && Taken(order, n) <= seen.Keys
  {
    if n == 0 then queue else Admit(AdmitAll(queue, seen, order, n - 1), order[n - 1], seen[order[n - 1]])
  }

  // ----- the order a section is shown in -----

  /** Pinned first, then by rank, then by identity. */
  predicate Earlier(tracked: map<AgentId, Tracked>, a: AgentId, b: AgentId) {
    var pinA, pinB := Pinned(tracked, a), Pinned(tracked, b);
    var rankA, rankB := Rank(tracked, a), Rank(tracked, b);
    (pinA && !pinB) || (pinA == pinB && (rankA < rankB || (rankA == rankB && IdLess(a, b))))
  }

  predicate Pinned(tracked: map<AgentId, Tracked>, id: AgentId) {
    id in tracked && tracked[id].card.marks.pinned
  }

  function Rank(tracked: map<AgentId, Tracked>, id: AgentId): nat {
    if id in tracked then tracked[id].rank else 0
  }

  function InOrder(tracked: map<AgentId, Tracked>): (AgentId, AgentId) -> bool {
    (a, b) => Earlier(tracked, a, b)
  }

  lemma InOrderTotal(tracked: map<AgentId, Tracked>)
    ensures StrictTotal(InOrder(tracked))
  {
    IdLessTotal();
  }

  function InSection(tracked: map<AgentId, Tracked>, section: Section): set<AgentId> {
    set id | id in tracked && tracked[id].section == section
  }

  function SectionIds(tracked: map<AgentId, Tracked>, section: Section): (r: seq<AgentId>)
    ensures Increasing(r, InOrder(tracked))
    ensures Taken(r, |r|) == InSection(tracked, section)
  {
    InOrderTotal(tracked);
    Ascending(InSection(tracked, section), InOrder(tracked))
  }

  function CardsOf(order: seq<AgentId>, n: nat, tracked: map<AgentId, Tracked>): (r: seq<Card>)
    requires n <= |order| && Taken(order, n) <= tracked.Keys
    ensures |r| == n
  {
    if n == 0 then [] else CardsOf(order, n - 1, tracked) + [tracked[order[n - 1]].card]
  }

  function SectionCards(tracked: map<AgentId, Tracked>, section: Section): seq<Card> {
    var order := SectionIds(tracked, section);
    CardsOf(order, |order|, tracked)
  }

  function Shown(tracked: map<AgentId, Tracked>, history: seq<Card>): Published {
    Published(SectionCards(tracked, NeedsYou), SectionCards(tracked, Working), SectionCards(tracked, Recent) + history)
  }

  // ----- one projection -----

  function QueueAfter(index: Index, state: FederationState, build: Builder): Queue
    requires state.Qualified()
  {
    var seen := Seen(state, build);
    var order := IdOrder(seen.Keys);
    AdmitAll(Queue(Retained(index.tracked, seen, state), index.nextRank), seen, order, |order|)
  }

  function HistoryAfter(index: Index, state: FederationState, build: Builder): seq<Card>
    requires state.Qualified()
  {
    var gone := IdOrder(Vanishing(index.tracked, Seen(state, build), state));
    RetireAll(index.history, gone, |gone|, index.tracked)
  }

  function Publish(index: Index, shown: Published): Index {
    index.(published := Some(shown),
           revision := if index.published == Some(shown) then index.revision else index.revision + 1)
  }

  function Projected(index: Index, state: FederationState, build: Builder): Index
    requires state.Qualified()
  {
    var queue := QueueAfter(index, state, build);
    var history := HistoryAfter(index, state, build);
    Publish(Index(queue.tracked, history, queue.next, index.revision, index.published), Shown(queue.tracked, history))
  }

  /** The first card of the inbox that carries this identity. */
  function CardFor(cards: seq<Card>, id: AgentId): (r: Option<Card>)
    ensures r.Some? ==> r.value in cards && r.value.agent == id
    ensures r.None? ==> forall card | card in cards :: card.agent != id
  {
    if cards == [] then None
    else if cards[0].agent == id then Some(cards[0])
    else CardFor(cards[1..], id)
  }

  // ----- routes -----

  datatype Route = Route(pane: PaneId, generation: nat)

  datatype RouteError = UnknownTarget | TargetUnavailable | AgentGone | PaneMissing | Ambiguous

  /** The live pane for an identity, from the current federation alone. */
  function Resolve(id: AgentId, state: FederationState): Result<Route, RouteError> {
    if id.Owner() !in state.targets then Err(UnknownTarget)
    else
      var target := state.targets[id.Owner()];
      if target.connection != Live || target.snapshot.None? then Err(TargetUnavailable)
      else
        var matching := Matching(target.snapshot.value.agents, IdOrder(target.snapshot.value.agents.Keys), 0, id);
        if matching == [] then Err(AgentGone)
        else if |matching| > 1 then Err(Ambiguous)
        else if matching[0].pane !in target.snapshot.value.panes then Err(PaneMissing)
        else Ok(Route(matching[0].pane, target.generation))
  }

  /** The agents answering to `id`, in the snapshot's order, from position `from` on. */
  function Matching(agents: map<PaneId, AgentState>, order: seq<PaneId>, from: nat, id: AgentId): seq<AgentState>
    requires from <= |order| && Taken(order, |order|) == agents.Keys
    decreases |order| - from
  {
    if from == |order| then []
    else
      TakenMember(order, |order|, order[from]);
      var rest := Matching(agents, order, from + 1, id);
      if AgentKey(agents[order[from]]) == id then [agents[order[from]]] + rest else rest
  }
}
