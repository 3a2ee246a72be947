/** The durable attention history a daemon derives from federations, and a client's mirror of it. */
module Attention {
  import opened Base
  import opened Ordering
  import opened Federation

  const MAX_ATTENTION_EVENTS: nat := 256
  const MAX_AGENT_OBSERVATIONS: nat := 4096
  const ATTENTION_STATE_VERSION: nat := 1

  datatype EventKind = NeedsAttention | StartedWorking | Completed | StatusChanged | Disappeared

  datatype Event = Event(
    id: nat, pane: PaneId, agent: string, workspace: string, status: string, kind: EventKind,
    occurredAt: nat, unread: bool)

  datatype Observation = Observation(
    pane: PaneId, agent: string, workspace: string, status: string, interactiveReady: bool)

  datatype Phase = Attention | Working | Idle | Unknown

  /** What has been recorded, and the number the next event gets. */
  datatype History = History(next: nat, events: seq<Event>) {
    ghost predicate Valid() {
      Sorted(events) && |events| <= MAX_ATTENTION_EVENTS && forall e | e in events :: e.id < next
    }
  }

  /** The index as one value. */
  datatype Log = Log(observations: map<PaneId, Observation>, history: History) {
    ghost predicate Valid() {
      history.Valid() && forall p | p in observations :: observations[p].pane == p
    }
  }

  /** Ids strictly increase along the history. */
  ghost predicate Sorted(events: seq<Event>) {
    forall i, j | 0 <= i < j < |events| :: events[i].id < events[j].id
  }

  // ----- what one agent looks like -----

  predicate IsControl(c: char) { c < ' ' || '\U{007F}' <= c <= '\U{009F}' }

  /** At most `limit` characters, with every control character shown as a space. */
  function BoundedMetadata(value: string, limit: nat): (r: string)
    ensures |r| <= limit && |r| <= |value|
  {
    if value == "" || limit == 0 then ""
    else [if IsControl(value[0]) then ' ' else value[0]] + BoundedMetadata(value[1..], limit - 1)
  }

  function AsciiLower(s: string): (r: string)
    ensures |r| == |s|
  {
    if s == "" then "" else [if 'A' <= s[0] <= 'Z' then s[0] - 'A' + 'a' else s[0]] + AsciiLower(s[1..])
  }

  /** The status words a target may report, and the phase each one names. */
  const VOCABULARY: seq<(string, Phase)> := [
    ("blocked", Attention), ("waiting", Attention), ("waiting_for_input", Attention),
    ("needs_input", Attention), ("ready", Attention),
    ("working", Working), ("running", Working), ("busy", Working), ("active", Working),
    ("idle", Idle), ("completed", Idle), ("done", Idle)]

  function PhaseNamed(word: string, vocabulary: seq<(string, Phase)>): Phase {
    if vocabulary == [] then Unknown
    else if vocabulary[0].0 == word then vocabulary[0].1
    else PhaseNamed(word, vocabulary[1..])
  }

  function AgentPhase(status: string, interactiveReady: bool): Phase {
    if interactiveReady then Attention else PhaseNamed(AsciiLower(status), VOCABULARY)
  }

  function Or<T>(first: Option<T>, second: Option<T>): Option<T> {
    if first.Some? then first else second
  }

  function GetOr<T>(value: Option<T>, default: T): T {
    if value.Some? then value.value else default
  }

  function PaneOf(agent: AgentState, snapshot: Snapshot): Option<PaneState> {
    if agent.pane in snapshot.panes then Some(snapshot.panes[agent.pane]) else None
  }

  function WorkspaceLabel(pane: Option<PaneState>, snapshot: Snapshot): string {
    if pane.None? || pane.value.workspace.None? then "unassigned"
    else
      var workspace := pane.value.workspace.value;
      if workspace in snapshot.workspaces
      then GetOr(snapshot.workspaces[workspace].caption, workspace.resource)
      else workspace.resource
  }

  function StatusWord(agent: AgentState, snapshot: Snapshot): string {
    var pane := PaneOf(agent, snapshot);
    BoundedMetadata(GetOr(Or(agent.status, if pane.Some? then pane.value.agentStatus else None), "unknown"), 64)
  }

  function ObservationOf(agent: AgentState, snapshot: Snapshot): Observation {
    var pane := PaneOf(agent, snapshot);
    Observation(
      agent.pane,
      BoundedMetadata(
        GetOr(Or(agent.name, Or(agent.agent, if pane.Some? then pane.value.agent else None)),
               agent.pane.resource), 128),
      BoundedMetadata(WorkspaceLabel(pane, snapshot), 128),
      StatusWord(agent, snapshot),
      GetOr(agent.interactiveReady, false))
  }

  function TransitionKind(previous: Observation, current: Observation): Option<EventKind> {
    var before := AgentPhase(previous.status, previous.interactiveReady);
    var after := AgentPhase(current.status, current.interactiveReady);
    if before == after then
      if current.interactiveReady && !previous.interactiveReady then Some(NeedsAttention) else None
    else match after
      case Attention => Some(NeedsAttention)
      case Working => Some(StartedWorking)
      case Idle => if before == Attention || before == Working then Some(Completed) else Some(StatusChanged)
      case Unknown => Some(StatusChanged)
  }

  // ----- one observation of a federation, as a function -----

  /** The sessions whose snapshot is evidence: connected, and with something to show. */
  predicate Reporting(state: FederationState, t: TargetSession) {
    state.LiveAt(t) && state.targets[t].snapshot.Some?
  }

  /** The panes some reporting session lists an agent in. */
  function Listed(state: FederationState): (r: set<PaneId>)
    requires state.Qualified()
    ensures forall p :: p in r <==> Reporting(state, p.Owner()) && p in state.AgentsAt(p.Owner())
  {
    set t, p | t in state.targets && Reporting(state, t) && p in state.targets[t].snapshot.value.agents :: p
  }

  function Sighting(state: FederationState, p: PaneId): Observation
    requires Reporting(state, p.Owner()) && p in state.AgentsAt(p.Owner())
  {
    ObservationOf(state.AgentsAt(p.Owner())[p], state.targets[p.Owner()].snapshot.value)
  }

  function Current(state: FederationState): map<PaneId, Observation>
    requires state.Qualified()
  {
    map p | p in Listed(state) :: Sighting(state, p)
  }

  /** What the sighting of one agent pushes: at most one change. */
  function Change(held: map<PaneId, Observation>, current: Observation): (r: seq<(Observation, EventKind)>)
    ensures |r| <= 1
  {
    if current.pane in held && TransitionKind(held[current.pane], current).Some?
    then [(current, TransitionKind(held[current.pane], current).value)] else []
  }

  /** The changes along the first `n` panes of `order`, between what was held and what is current. */
  function Changes(order: seq<PaneId>, n: nat, held: map<PaneId, Observation>, current: map<PaneId, Observation>)
    : seq<(Observation, EventKind)>
    requires n <= |order| && Taken(order, n) <= current.Keys
  {
    if n == 0 then []
    else Changes(order, n - 1, held, current) + Change(held, current[order[n - 1]])
  }

  /** The held panes a reporting session no longer lists. */
  function Dropped(
    state: FederationState, held: map<PaneId, Observation>, current: map<PaneId, Observation>): set<PaneId> {
    set p | p in held && Reporting(state, p.Owner()) && p !in current
  }

  function VanishedPanes(state: FederationState, held: map<PaneId, Observation>): (r: seq<PaneId>)
    requires state.Qualified()
    ensures Taken(r, |r|) == Dropped(state, held, Current(state))
  {
    IdOrder(Dropped(state, held, Current(state)))
  }

  function CurrentPanes(state: FederationState): seq<PaneId>
    requires state.Qualified()
  {
    IdOrder(Current(state).Keys)
  }

  function Departures(order: seq<PaneId>, n: nat, held: map<PaneId, Observation>): seq<(Observation, EventKind)>
    requires n <= |order| && Taken(order, n) <= held.Keys
  {
    if n == 0 then [] else Departures(order, n - 1, held) + [(held[order[n - 1]], Disappeared)]
  }

  /** Everything one observation pushes, in the order it pushes it. */
  function Emitted(held: map<PaneId, Observation>, state: FederationState): seq<(Observation, EventKind)>
    requires state.Qualified()
  {
    var order, gone := CurrentPanes(state), VanishedPanes(state, held);
    Changes(order, |order|, held, Current(state)) + Departures(gone, |gone|, held)
  }

  /** The newest events, oldest first: the front goes until the rest fits. */
  function Cap(events: seq<Event>): (r: seq<Event>)
    ensures |r| <= MAX_ATTENTION_EVENTS
    ensures |events| <= MAX_ATTENTION_EVENTS ==> r == events
  {
    if |events| <= MAX_ATTENTION_EVENTS then events else Cap(events[1..])
  }

  lemma {:induction false} CapDrains(events: seq<Event>)
    requires |events| > MAX_ATTENTION_EVENTS
    ensures Cap(events) == events[|events| - MAX_ATTENTION_EVENTS..]
  {
    if |events| - 1 > MAX_ATTENTION_EVENTS {
      CapDrains(events[1..]);
    }
  }

  function Made(id: nat, change: (Observation, EventKind), clock: nat -> nat): Event {
    var o := change.0;
    Event(id, o.pane, o.agent, o.workspace, o.status, change.1, clock(id), true)
  }

  function Pushed(history: History, changes: seq<(Observation, EventKind)>, clock: nat -> nat): (r: History)
    ensures r.next == history.next + |changes|
  {
    if changes == [] then history
    else
      var last := |changes| - 1;
      var before := Pushed(history, changes[..last], clock);
      History(before.next + 1, Cap(before.events + [Made(before.next, changes[last], clock)]))
  }

  /** What is remembered afterwards: what is current, and what nobody could be asked about. */
  function Remembered(state: FederationState, held: map<PaneId, Observation>): map<PaneId, Observation>
    requires state.Qualified()
  {
    var seen := held + Current(state);
    map p | p in seen && p.Owner() in state.targets && (p in Current(state) || !Reporting(state, p.Owner())) :: seen[p]
  }

  lemma RememberedAt(state: FederationState, held: map<PaneId, Observation>, p: PaneId)
    requires state.Qualified()
    ensures var after, current := Remembered(state, held), Current(state);
      && (p in current ==> p.Owner() in state.targets)
      && (p in after <==> p in current || (p in held && p.Owner() in state.targets && !Reporting(state, p.Owner())))
      && (p in after ==> after[p] == if p in current then current[p] else held[p])
  {
  }

  function Observed(log: Log, state: FederationState, clock: nat -> nat): Log
    requires state.Qualified()
  {
    Log(Remembered(state, log.observations), Pushed(log.history, Emitted(log.observations, state), clock))
  }

  lemma {:induction false} PushedTwice(
    history: History, first: seq<(Observation, EventKind)>, second: seq<(Observation, EventKind)>, clock: nat -> nat)
    ensures Pushed(Pushed(history, first, clock), second, clock) == Pushed(history, first + second, clock)
  {
    if second == [] {
      assert first + second == first;
    } else {
      var last := |second| - 1;
      PushedTwice(history, first, second[..last], clock);
      assert (first + second)[..|first| + last] == first + second[..last];
    }
  }

  // ----- the mirror, as functions -----

  /** A stable insertion: after every event whose id is not greater. */
  function InsertById(events: seq<Event>, event: Event): seq<Event> {
    if events == [] || events[|events| - 1].id <= event.id then events + [event]
    else InsertById(events[..|events| - 1], event) + [events[|events| - 1]]
  }

  /** The stable sort by id. */
  function SortById(events: seq<Event>): seq<Event> {
    if events == [] then []
    else InsertById(SortById(events[..|events| - 1]), events[|events| - 1])
  }

  predicate Holds(events: seq<Event>, id: nat) {
    exists i | 0 <= i < |events| :: events[i].id == id
  }

  function IndexOf(events: seq<Event>, id: nat): (i: nat)
    requires Holds(events, id)
    ensures i < |events| && events[i].id == id
    ensures forall j | 0 <= j < i :: events[j].id != id
  {
    if events[0].id == id then 0 else 1 + IndexOf(events[1..], id)
  }

  function Applied(mirror: History, event: Event): History {
    if Holds(mirror.events, event.id)
    then mirror.(events := mirror.events[IndexOf(mirror.events, event.id) := event])
    else History(if mirror.next < event.id + 1 then event.id + 1 else mirror.next,
                 Cap(SortById(mirror.events + [event])))
  }

  function AppliedAll(mirror: History, events: seq<Event>): History {
    if events == [] then mirror
    else Applied(AppliedAll(mirror, events[..|events| - 1]), events[|events| - 1])
  }

  function MirrorOf(events: seq<Event>): History { History(NextAfter(events, 0), events) }

  /** One past the highest id, or `floor` when that is higher. */
  function NextAfter(events: seq<Event>, floor: nat): (next: nat)
    ensures floor <= next && forall e | e in events :: e.id < next
    ensures next == floor || exists e | e in events :: next == e.id + 1
  {
    if events == [] then floor
    else
      var rest := NextAfter(events[..|events| - 1], floor);
      var last := events[|events| - 1];
      assert forall e | e in events :: e in events[..|events| - 1] || e == last;
      if rest <= last.id then last.id + 1 else rest
  }

  // ----- marks and persistence, as functions -----

  function Seen(events: seq<Event>, pane: Option<PaneId>): (r: seq<Event>)
    ensures |r| == |events|
    ensures forall i | 0 <= i < |r| :: r[i].id == events[i].id && r[i].pane == events[i].pane
  {
    seq(|events|, i requires 0 <= i < |events| =>
      if pane.None? || events[i].pane == pane.value then events[i].(unread := false) else events[i])
  }

  function UnreadOnly(events: seq<Event>): seq<Event> {
    if events == [] then []
    else UnreadOnly(events[..|events| - 1]) + if events[|events| - 1].unread then [events[|events| - 1]] else []
  }

  function Listing(order: seq<PaneId>, n: nat, held: map<PaneId, Observation>): (r: seq<Observation>)
    requires n <= |order| && Taken(order, n) <= held.Keys
    ensures |r| == n
  {
    if n == 0 then [] else Listing(order, n - 1, held) + [held[order[n - 1]]]
  }

  datatype Persisted = Persisted(version: nat, next: nat, observations: seq<Observation>, events: seq<Event>)

  function Persist(log: Log): Persisted {
    var order := IdOrder(log.observations.Keys);
    Persisted(ATTENTION_STATE_VERSION, log.history.next,
              Listing(order, |order|, log.observations), log.history.events)
  }

  predicate DistinctPanes(observations: seq<Observation>) {
    forall i, j | 0 <= i < j < |observations| :: observations[i].pane != observations[j].pane
  }

  function ByPane(observations: seq<Observation>): map<PaneId, Observation> {
    if observations == [] then map[]
    else
      var last := observations[|observations| - 1];
      ByPane(observations[..|observations| - 1])[last.pane := last]
  }

  datatype RestoreError = UnsupportedVersion | TooManyObservations | TooManyEvents | DuplicateObservations

  function Restore(p: Persisted): Result<Log, RestoreError> {
    if p.version != ATTENTION_STATE_VERSION then Err(UnsupportedVersion)
    else if |p.observations| > MAX_AGENT_OBSERVATIONS then Err(TooManyObservations)
    else if |p.events| > MAX_ATTENTION_EVENTS then Err(TooManyEvents)
    else if !DistinctPanes(p.observations) then Err(DuplicateObservations)
    else Ok(Log(ByPane(p.observations), History(NextAfter(p.events, p.next), p.events)))
  }
}
