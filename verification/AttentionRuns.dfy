/**
 * The attention index of a daemon over whole runs, and the file that outlives a restart: what each
 * step keeps, when a restart numbers on, and exactly when an event id is given out twice.
 */
module AttentionRuns {
  import opened Base
  import opened Ordering
  import opened Federation
  import opened Attention
  import opened AttentionLaws

  // ----- persistence -----

  lemma {:induction false} ListingPanes(order: seq<PaneId>, n: nat, held: map<PaneId, Observation>)
    requires n <= |order| && Taken(order, n) <= held.Keys && Increasing(order, IdLess) && Keyed(held)
    ensures DistinctPanes(Listing(order, n, held))
    ensures forall i | 0 <= i < n :: Listing(order, n, held)[i].pane in Taken(order, n)
  {
    if n > 0 {
      ListingPanes(order, n - 1, held);
      IdStep(order, n - 1);
    }
  }

  lemma OneMoreHeld(held: map<PaneId, Observation>, met: set<PaneId>, p: PaneId)
    requires p in held && met <= held.Keys
    ensures (map q | q in met :: held[q])[p := held[p]] == map q | q in met + {p} :: held[q]
  {
  }

  lemma {:induction false} ListingByPane(order: seq<PaneId>, n: nat, held: map<PaneId, Observation>)
    requires n <= |order| && Taken(order, n) <= held.Keys && Keyed(held)
    ensures ByPane(Listing(order, n, held)) == map p | p in Taken(order, n) :: held[p]
  {
    if n > 0 {
      ListingByPane(order, n - 1, held);
      assert Listing(order, n, held)[..n - 1] == Listing(order, n - 1, held);
      OneMoreHeld(held, Taken(order, n - 1), order[n - 1]);
    }
  }

  lemma NextAfterBelow(events: seq<Event>, floor: nat)
    requires forall e | e in events :: e.id < floor
    ensures NextAfter(events, floor) == floor
  {
  }

  lemma ListingWhole(log: Log)
    requires log.Valid()
    ensures var written := Persist(log).observations;
      && |written| == |log.observations| && DistinctPanes(written) && ByPane(written) == log.observations
  {
    var order := IdOrder(log.observations.Keys);
    ListingPanes(order, |order|, log.observations);
    ListingByPane(order, |order|, log.observations);
    assert |log.observations.Keys| == |log.observations|;
    WholeMap(log.observations);
  }

  lemma WholeMap(held: map<PaneId, Observation>)
    ensures (map p | p in held.Keys :: held[p]) == held
  {
  }

  /** What is written down is read back as it was, exactly when it is small enough to be accepted. */
  lemma PersistenceKeeps(log: Log)
    requires log.Valid()
    ensures Restore(Persist(log)) ==
            if |log.observations| <= MAX_AGENT_OBSERVATIONS then Ok(log) else Err(TooManyObservations)
  {
    NextAfterBelow(log.history.events, log.history.next);
    ListingWhole(log);
  }

  // ----- runs -----

  /** The index in memory, and the index whose writing last took, if any did. */
  datatype Daemon = Daemon(log: Log, disk: Option<Log>)

  const NOTHING: Log := Log(map[], History(0, []))

  /** Before the first start nothing was ever written. */
  const FIRST: Daemon := Daemon(NOTHING, None)

  datatype Step =
    | Observe(state: FederationState, clock: nat -> nat)
    | SeePane(pane: PaneId)
    | SeeAll
    | ClearSeen
    | Save(taken: bool)
    | Restart(readable: bool)

  /** What a start goes on from: the file when it is read and accepted, and otherwise nothing. */
  function Loaded(disk: Option<Log>, readable: bool): Log {
    if !readable || disk.None? then NOTHING
    else
      var restored := Restore(Persist(disk.value));
      if restored.Ok? then restored.value else NOTHING
  }

  predicate Accepted(disk: Option<Log>) {
    disk.Some? && |disk.value.observations| <= MAX_AGENT_OBSERVATIONS
  }

  ghost predicate Admissible(step: Step) {
    step.Observe? ==> step.state.Qualified()
  }

  ghost predicate AllAdmissible(steps: seq<Step>) {
    forall i | 0 <= i < |steps| :: Admissible(steps[i])
  }

  ghost function Marked(log: Log, events: seq<Event>): Log {
    log.(history := log.history.(events := events))
  }

  ghost function Next(before: Daemon, step: Step): Daemon
    requires Admissible(step)
  {
    var log := before.log;
    match step
    case Observe(state, clock) => before.(log := Observed(log, state, clock))
    case SeePane(pane) => before.(log := Marked(log, Seen(log.history.events, Some(pane))))
    case SeeAll => before.(log := Marked(log, Seen(log.history.events, None)))
    case ClearSeen => before.(log := Marked(log, UnreadOnly(log.history.events)))
    case Save(taken) => if taken then before.(disk := Some(log)) else before
    case Restart(readable) => before.(log := Loaded(before.disk, readable))
  }

  /** The events a step creates. */
  ghost function Created(before: Log, step: Step): seq<Event>
    requires Admissible(step)
  {
    if step.Observe? then Minted(before.history.next, Emitted(before.observations, step.state), step.clock) else []
  }

  ghost function Reached(steps: seq<Step>): Daemon
    requires AllAdmissible(steps)
  {
    if steps == [] then FIRST else Next(Reached(steps[..|steps| - 1]), steps[|steps| - 1])
  }

  /** Everything the last step of a run creates. */
  ghost function LastCreated(steps: seq<Step>): seq<Event>
    requires AllAdmissible(steps) && steps != []
  {
    Created(Reached(steps[..|steps| - 1]).log, steps[|steps| - 1])
  }

  ghost function AllCreated(steps: seq<Step>): seq<Event>
    requires AllAdmissible(steps)
  {
    if steps == [] then [] else AllCreated(steps[..|steps| - 1]) + LastCreated(steps)
  }

  lemma {:induction false} UnreadKeeps(events: seq<Event>)
    ensures |UnreadOnly(events)| <= |events|
    ensures forall e | e in UnreadOnly(events) :: e in events && e.unread
    ensures forall e | e in events && e.unread :: e in UnreadOnly(events)
    ensures Sorted(events) ==> Sorted(UnreadOnly(events))
  {
    if events != [] {
      var rest, last := events[..|events| - 1], events[|events| - 1];
      UnreadKeeps(rest);
      assert forall e | e in events :: e in rest || e == last;
      assert Sorted(events) ==> forall e | e in rest :: e.id < last.id;
    }
  }

  ghost predicate SameBut(a: Event, b: Event) { a == b.(unread := a.unread) }

  /** `e` is in `pool`, up to whether it has been seen. */
  ghost predicate From(e: Event, pool: seq<Event>) {
    exists f :: f in pool && SameBut(e, f)
  }

  lemma FromItself(events: seq<Event>, pool: seq<Event>)
    requires forall e | e in events :: e in pool
    ensures forall e | e in events :: From(e, pool)
  {
    forall e | e in events ensures From(e, pool) {
      assert SameBut(e, e);
    }
  }

  lemma SeenKeeps(events: seq<Event>, pane: Option<PaneId>)
    ensures Sorted(events) ==> Sorted(Seen(events, pane))
    ensures forall e | e in Seen(events, pane) :: From(e, events)
  {
    forall e | e in Seen(events, pane) ensures From(e, events) {
      var i :| 0 <= i < |events| && Seen(events, pane)[i] == e;
      assert SameBut(e, events[i]);
    }
  }

  lemma ObserveKeeps(before: Log, state: FederationState, clock: nat -> nat)
    requires before.Valid() && state.Qualified()
    ensures Observed(before, state, clock).Valid()
    ensures forall e | e in Observed(before, state, clock).history.events ::
              From(e, before.history.events + Minted(before.history.next, Emitted(before.observations, state), clock))
  {
    var changes := Emitted(before.observations, state);
    var pool := before.history.events + Minted(before.history.next, changes, clock);
    PushedValid(before.history, changes, clock);
    PushedKeepsNewest(before.history, changes, clock);
    CapKeeps(pool);
    FromItself(Cap(pool), pool);
    RememberedShape(state, before.observations);
  }

  /** Every step but a restart keeps the index well formed, numbers on from where it was, and invents no event. */
  lemma StepKeeps(before: Daemon, step: Step)
    requires before.log.Valid() && Admissible(step) && !step.Restart?
    ensures var after := Next(before, step).log;
      && after.Valid()
      && after.history.next == before.log.history.next + |Created(before.log, step)|
      && forall e | e in after.history.events :: From(e, before.log.history.events + Created(before.log, step))
  {
    var events := before.log.history.events;
    match step
    case Observe(state, clock) => ObserveKeeps(before.log, state, clock);
    case SeePane(pane) => MarkKeeps(before.log, Some(pane));
    case SeeAll => MarkKeeps(before.log, None);
    case ClearSeen =>
      UnreadKeeps(events);
      FromItself(UnreadOnly(events), events + []);
    case Save(_) => FromItself(events, events + []);
  }

  lemma MarkKeeps(log: Log, pane: Option<PaneId>)
    requires log.Valid()
    ensures var after := Marked(log, Seen(log.history.events, pane));
      after.Valid() && forall e | e in after.history.events :: From(e, log.history.events + [])
  {
    SeenKeeps(log.history.events, pane);
    assert log.history.events + [] == log.history.events;
  }

  /** A start goes on from what was written exactly when that is read and not too large, and from nothing otherwise. */
  lemma LoadedIs(disk: Option<Log>, readable: bool)
    requires disk.Some? ==> disk.value.Valid()
    ensures Loaded(disk, readable) == if readable && Accepted(disk) then disk.value else NOTHING
  {
    if disk.Some? {
      PersistenceKeeps(disk.value);
    }
  }

  ghost predicate BothValid(d: Daemon) {
    d.log.Valid() && (d.disk.Some? ==> d.disk.value.Valid())
  }

  /** A restart goes back to the file or to zero, and any other step numbers on; only saving moves the file. */
  ghost predicate Numbers(before: Daemon, step: Step, after: Daemon, created: nat) {
    && after.log.history.next
       == (if !step.Restart? then before.log.history.next + created
           else if step.readable && Accepted(before.disk) then before.disk.value.history.next else 0)
    && after.disk == (if step == Save(true) then Some(before.log) else before.disk)
    && (!step.Observe? ==> created == 0)
  }

  lemma NextKeeps(before: Daemon, step: Step)
    requires BothValid(before) && Admissible(step)
    ensures BothValid(Next(before, step))
    ensures Numbers(before, step, Next(before, step), |Created(before.log, step)|)
  {
    if step.Restart? {
      LoadedIs(before.disk, step.readable);
    } else {
      StepKeeps(before, step);
    }
  }

  /** Every index of a run, in memory or on disk, is sorted, capped at 256 and numbered below its next id. */
  lemma {:induction false} RunKeeps(steps: seq<Step>)
    requires AllAdmissible(steps)
    ensures BothValid(Reached(steps))
  {
    if steps != [] {
      RunKeeps(steps[..|steps| - 1]);
      NextKeeps(Reached(steps[..|steps| - 1]), steps[|steps| - 1]);
    }
  }

  /** The last step of a run, and its effect on the numbering. */
  lemma {:induction false} LastStep(steps: seq<Step>)
    returns (front: seq<Step>, last: Step, before: Daemon, after: Daemon)
    requires AllAdmissible(steps) && steps != []
    ensures front == steps[..|steps| - 1] && last == steps[|steps| - 1] && AllAdmissible(front)
    ensures before == Reached(front) && after == Reached(steps) && BothValid(before) && BothValid(after)
    ensures Numbers(before, last, after, |LastCreated(steps)|)
  {
    front, last := steps[..|steps| - 1], steps[|steps| - 1];
    before, after := Reached(front), Reached(steps);
    RunKeeps(front);
    NextKeeps(before, last);
  }

  // ----- where events come from -----

  ghost predicate AllFrom(events: seq<Event>, pool: seq<Event>) {
    forall e | e in events :: From(e, pool)
  }

  lemma FromAlso(e: Event, f: Event, pool: seq<Event>)
    requires SameBut(e, f) && From(f, pool)
    ensures From(e, pool)
  {
    var g :| g in pool && SameBut(f, g);
    assert SameBut(e, g);
  }

  lemma AllFromGrown(events: seq<Event>, pool: seq<Event>, more: seq<Event>)
    requires AllFrom(events, pool)
    ensures AllFrom(events, pool + more)
  {
    forall e | e in events ensures From(e, pool + more) {
      var f :| f in pool && SameBut(e, f);
      assert f in pool + more;
    }
  }

  lemma AllFromStep(after: seq<Event>, before: seq<Event>, pool: seq<Event>, created: seq<Event>)
    requires AllFrom(before, pool) && AllFrom(after, before + created)
    ensures AllFrom(after, pool + created)
  {
    AllFromGrown(before, pool, created);
    forall e | e in after ensures From(e, pool + created) {
      var f :| f in before + created && SameBut(e, f);
      assert SameBut(f, f);
      assert f in before || (f in created && f in pool + created);
      FromAlso(e, f, pool + created);
    }
  }

  /** Everything held in memory or on disk comes from the pool. */
  ghost predicate Sourced(d: Daemon, pool: seq<Event>) {
    AllFrom(d.log.history.events, pool) && (d.disk.Some? ==> AllFrom(d.disk.value.history.events, pool))
  }

  lemma SourcedGrown(d: Daemon, pool: seq<Event>, more: seq<Event>)
    requires Sourced(d, pool)
    ensures Sourced(d, pool + more)
  {
    AllFromGrown(d.log.history.events, pool, more);
    if d.disk.Some? {
      AllFromGrown(d.disk.value.history.events, pool, more);
    }
  }

  lemma {:induction false} NextSourced(before: Daemon, step: Step, pool: seq<Event>)
    requires BothValid(before) && Admissible(step) && Sourced(before, pool)
    ensures Sourced(Next(before, step), pool + Created(before.log, step))
  {
    SourcedGrown(before, pool, Created(before.log, step));
    if step.Restart? {
      LoadedIs(before.disk, step.readable);
    } else {
      StepKeeps(before, step);
      AllFromStep(Next(before, step).log.history.events, before.log.history.events, pool, Created(before.log, step));
    }
  }

  /** Every event held in memory or on disk was created by a step of the run. */
  lemma {:induction false} EventsHaveOrigins(steps: seq<Step>)
    requires AllAdmissible(steps)
    ensures Sourced(Reached(steps), AllCreated(steps))
  {
    if steps != [] {
      var front := steps[..|steps| - 1];
      EventsHaveOrigins(front);
      RunKeeps(front);
      NextSourced(Reached(front), steps[|steps| - 1], AllCreated(front));
    }
  }

  // ----- which ids are given out -----

  ghost function Ids(events: seq<Event>): set<nat> {
    set e | e in events :: e.id
  }

  /** Every id some step of the run has given out. */
  ghost function Given(steps: seq<Step>): set<nat>
    requires AllAdmissible(steps)
  {
    if steps == [] then {} else Given(steps[..|steps| - 1]) + Ids(LastCreated(steps))
  }

  /** The highest number any index of the run would have given next. */
  ghost function HighWater(steps: seq<Step>): nat
    requires AllAdmissible(steps)
  {
    if steps == [] then 0
    else
      var before, next := HighWater(steps[..|steps| - 1]), Reached(steps).log.history.next;
      if before < next then next else before
  }

  lemma MintedAt(next: nat, changes: seq<(Observation, EventKind)>, clock: nat -> nat, id: nat)
    ensures id in Ids(Minted(next, changes, clock)) <==> next <= id < next + |changes|
  {
    var minted := Minted(next, changes, clock);
    if next <= id < next + |changes| {
      assert minted[id - next].id == id;
    }
  }

  lemma CreatedIds(before: Log, step: Step, id: nat)
    requires Admissible(step)
    ensures id in Ids(Created(before, step))
       <==> before.history.next <= id < before.history.next + |Created(before, step)|
  {
    if step.Observe? {
      MintedAt(before.history.next, Emitted(before.observations, step.state), step.clock, id);
    }
  }

  ghost predicate Under(d: Daemon, high: nat) {
    d.log.history.next <= high && (d.disk.Some? ==> d.disk.value.history.next <= high)
  }

  lemma UnderStep(before: Daemon, step: Step, after: Daemon, created: nat, low: nat, high: nat)
    requires Numbers(before, step, after, created) && Under(before, low)
    requires low <= high && after.log.history.next <= high
    ensures Under(after, high)
  {
  }

  lemma {:induction false} WaterRises(steps: seq<Step>)
    requires AllAdmissible(steps) && steps != []
    ensures HighWater(steps[..|steps| - 1]) <= HighWater(steps) && Reached(steps).log.history.next <= HighWater(steps)
    ensures HighWater(steps[..|steps| - 1]) <= Reached(steps).log.history.next ==>
            HighWater(steps) == Reached(steps).log.history.next
  {
  }

  /** The high water bounds every number in memory and on disk. */
  lemma {:induction false} BelowHighWater(steps: seq<Step>)
    requires AllAdmissible(steps)
    ensures Under(Reached(steps), HighWater(steps))
  {
    if steps != [] {
      var front, last, before, after := LastStep(steps);
      BelowHighWater(front);
      WaterRises(steps);
      UnderStep(before, last, after, |LastCreated(steps)|, HighWater(front), HighWater(steps));
    }
  }

  /** The ids given out are exactly those below the high water. */
  lemma {:induction false} GivenExactly(steps: seq<Step>, id: nat)
    requires AllAdmissible(steps)
    ensures id in Given(steps) <==> id < HighWater(steps)
  {
    if steps != [] {
      var front, last, before, after := LastStep(steps);
      GivenExactly(front, id);
      BelowHighWater(front);
      CreatedIds(before.log, last, id);
    }
  }

  ghost predicate Below(ids: set<nat>, high: nat) {
    forall id: nat :: id in ids <==> id < high
  }

  ghost predicate Between(ids: set<nat>, next: nat, count: nat) {
    forall id: nat :: id in ids <==> next <= id < next + count
  }

  lemma {:induction false} GivenIsBelow(steps: seq<Step>)
    requires AllAdmissible(steps)
    ensures Below(Given(steps), HighWater(steps))
  {
    forall id: nat ensures id in Given(steps) <==> id < HighWater(steps) {
      GivenExactly(steps, id);
    }
  }

  /** The index numbers past every id of the set. */
  ghost predicate NumbersPast(log: Log, given: set<nat>) {
    forall id | id in given :: id < log.history.next
  }

  /** Numbering past what was given is standing at the high water. */
  lemma {:induction false} PastIsHighWater(steps: seq<Step>, log: Log)
    requires AllAdmissible(steps)
    ensures NumbersPast(log, Given(steps)) <==> log.history.next >= HighWater(steps)
    ensures Given(steps) == {} <==> HighWater(steps) == 0
  {
    GivenIsBelow(steps);
    if HighWater(steps) > 0 {
      assert HighWater(steps) - 1 in Given(steps);
    }
  }

  /** No id was given out, or the file is read, accepted and numbers past them all. */
  ghost predicate FilePast(disk: Option<Log>, readable: bool, given: set<nat>) {
    given == {} || (readable && Accepted(disk) && NumbersPast(disk.value, given))
  }

  /**
   * After a restart the next id is above every id given out exactly when what is on disk is read,
   * accepted and numbers past them, or nothing was given out.
   */
  lemma {:induction false} RestartNumbersOnExactly(steps: seq<Step>, readable: bool)
    requires AllAdmissible(steps)
    ensures var disk, given := Reached(steps).disk, Given(steps);
      NumbersPast(Loaded(disk, readable), given) <==> FilePast(disk, readable, given)
  {
    RunKeeps(steps);
    LoadedIs(Reached(steps).disk, readable);
    PastIsHighWater(steps, NOTHING);
  }

  // ----- over a whole run -----

  /** At every point of the run, the next id is above every id given out. */
  ghost predicate AlwaysPast(steps: seq<Step>)
    requires AllAdmissible(steps)
  {
    steps == [] || (AlwaysPast(steps[..|steps| - 1]) && NumbersPast(Reached(steps).log, Given(steps)))
  }

  /** Whether an event was created since writing last took. */
  ghost predicate Unsaved(steps: seq<Step>)
    requires AllAdmissible(steps)
  {
    steps != []
    && steps[|steps| - 1] != Save(true)
    && (LastCreated(steps) != [] || Unsaved(steps[..|steps| - 1]))
  }

  /** Each restart comes before any event, or reads an accepted file written since the last event. */
  ghost predicate CleanRestarts(steps: seq<Step>)
    requires AllAdmissible(steps)
  {
    steps == []
    || (var front, last := steps[..|steps| - 1], steps[|steps| - 1];
        && CleanRestarts(front)
        && (last.Restart? && AllCreated(front) != [] ==>
              last.readable && Accepted(Reached(front).disk) && !Unsaved(front)))
  }

  lemma {:induction false} CreatedIsGiven(steps: seq<Step>)
    requires AllAdmissible(steps)
    ensures AllCreated(steps) == [] <==> Given(steps) == {}
    ensures Unsaved(steps) ==> AllCreated(steps) != []
  {
    if steps != [] {
      CreatedIsGiven(steps[..|steps| - 1]);
      var created := LastCreated(steps);
      assert created != [] ==> created[0].id in Ids(created);
    }
  }

  /** At the high water: what is on disk is as far as the index exactly when nothing is unsaved. */
  ghost predicate Level(d: Daemon, unsaved: bool, high: nat) {
    && d.log.history.next == high
    && (d.disk.Some? ==>
          if unsaved then d.disk.value.history.next < high else d.disk.value.history.next == high)
    && (!unsaved && high > 0 ==> d.disk.Some?)
  }

  ghost predicate Abreast(steps: seq<Step>)
    requires AllAdmissible(steps)
  {
    Level(Reached(steps), Unsaved(steps), HighWater(steps))
  }

  lemma {:induction false} StepAbreast(steps: seq<Step>)
    requires AllAdmissible(steps) && steps != [] && Abreast(steps[..|steps| - 1])
    requires Reached(steps).log.history.next >= HighWater(steps[..|steps| - 1])
    ensures Abreast(steps)
  {
    var front, last, before, after := LastStep(steps);
    UnsavedStep(steps);
    WaterRises(steps);
    LevelStep(before, last, after, |LastCreated(steps)|, Unsaved(front), HighWater(front));
  }

  lemma {:induction false} UnsavedStep(steps: seq<Step>)
    requires AllAdmissible(steps) && steps != []
    ensures Unsaved(steps)
         == (steps[|steps| - 1] != Save(true) && (|LastCreated(steps)| > 0 || Unsaved(steps[..|steps| - 1])))
  {
  }

  lemma LevelStep(before: Daemon, step: Step, after: Daemon, created: nat, unsaved: bool, high: nat)
    requires Numbers(before, step, after, created) && Level(before, unsaved, high) && after.log.history.next >= high
    ensures Level(after, step != Save(true) && (created > 0 || unsaved), after.log.history.next)
  {
  }

  /** The next id stays above every id given out exactly when every restart is clean. */
  lemma {:induction false} AlwaysPastExactly(steps: seq<Step>)
    requires AllAdmissible(steps)
    ensures AlwaysPast(steps) <==> CleanRestarts(steps)
    ensures AlwaysPast(steps) ==> Abreast(steps)
  {
    if steps != [] {
      var front, last, before, after := LastStep(steps);
      AlwaysPastExactly(front);
      PastIsHighWater(steps, after.log);
      CreatedIsGiven(front);
      PastIsHighWater(front, before.log);
      if AlwaysPast(front) && after.log.history.next >= HighWater(front) {
        StepAbreast(steps);
      }
    }
  }

  ghost predicate DistinctIds(events: seq<Event>) {
    forall i, j | 0 <= i < j < |events| :: events[i].id != events[j].id
  }

  /** No step gives out one id twice, or an id that an earlier step gave out. */
  ghost predicate NoneTwice(steps: seq<Step>)
    requires AllAdmissible(steps)
  {
    steps == []
    || (var front := steps[..|steps| - 1];
        && NoneTwice(front) && DistinctIds(LastCreated(steps)) && Given(front) !! Ids(LastCreated(steps)))
  }

  lemma CreatedDistinct(before: Log, step: Step)
    requires Admissible(step)
    ensures DistinctIds(Created(before, step))
  {
  }

  /** The last restart, if there was one, read an accepted file past every id given out by then, if any was. */
  ghost predicate NumbersOn(steps: seq<Step>)
    requires AllAdmissible(steps)
  {
    steps == []
    || (var front, last := steps[..|steps| - 1], steps[|steps| - 1];
        if last.Restart? then FilePast(Reached(front).disk, last.readable, Given(front)) else NumbersOn(front))
  }

  /** No events are created after a restart that did not number on, until another does. */
  ghost predicate CreatesOn(steps: seq<Step>)
    requires AllAdmissible(steps)
  {
    steps == []
    || (var front := steps[..|steps| - 1]; CreatesOn(front) && (LastCreated(steps) != [] ==> NumbersOn(front)))
  }

  lemma {:induction false} RestartGivesNone(steps: seq<Step>)
    requires AllAdmissible(steps) && steps != [] && steps[|steps| - 1].Restart?
    ensures Given(steps) == Given(steps[..|steps| - 1])
  {
    assert Ids(LastCreated(steps)) == {};
  }

  lemma RestartIsFile(before: Daemon, step: Step, after: Daemon, given: set<nat>)
    requires step.Restart? && Numbers(before, step, after, 0)
    ensures NumbersPast(after.log, given) <==> FilePast(before.disk, step.readable, given)
  {
    assert given != {} && after.log.history.next == 0 ==> !NumbersPast(after.log, given);
  }

  lemma {:induction false} RestartNumbersOn(steps: seq<Step>)
    requires AllAdmissible(steps) && steps != [] && steps[|steps| - 1].Restart?
    ensures NumbersPast(Reached(steps).log, Given(steps)) <==> NumbersOn(steps)
  {
    var front, last, before, after := LastStep(steps);
    RestartGivesNone(steps);
    RestartIsFile(before, last, after, Given(front));
  }

  lemma {:induction false} CreatingStaysPast(steps: seq<Step>)
    requires AllAdmissible(steps) && steps != [] && !steps[|steps| - 1].Restart?
    ensures var front := steps[..|steps| - 1];
      && (NumbersPast(Reached(front).log, Given(front)) ==> NumbersPast(Reached(steps).log, Given(steps)))
      && (LastCreated(steps) == [] && NumbersPast(Reached(steps).log, Given(steps)) ==>
            NumbersPast(Reached(front).log, Given(front)))
  {
    var front, last, before, after := LastStep(steps);
    PastIsHighWater(steps, after.log);
    PastIsHighWater(front, before.log);
    WaterRises(steps);
    WaterMoves(steps);
  }

  lemma {:induction false} WaterMoves(steps: seq<Step>)
    requires AllAdmissible(steps) && steps != []
    ensures HighWater(steps) == HighWater(steps[..|steps| - 1]) || HighWater(steps) == Reached(steps).log.history.next
  {
  }

  /** With no event created out of turn, the index is past every id given out exactly when it last numbered on. */
  lemma {:induction false} PastIsNumberedOn(steps: seq<Step>)
    requires AllAdmissible(steps) && CreatesOn(steps)
    ensures NumbersPast(Reached(steps).log, Given(steps)) <==> NumbersOn(steps)
  {
    if steps != [] {
      var front := steps[..|steps| - 1];
      PastIsNumberedOn(front);
      if steps[|steps| - 1].Restart? {
        RestartNumbersOn(steps);
      } else {
        CreatingStaysPast(steps);
      }
    }
  }

  lemma {:induction false} CreatesNewExactly(steps: seq<Step>)
    requires AllAdmissible(steps) && steps != []
    ensures var front := steps[..|steps| - 1];
      Given(front) !! Ids(LastCreated(steps))
      <==> (LastCreated(steps) != [] ==> NumbersPast(Reached(front).log, Given(front)))
  {
    var front, created := steps[..|steps| - 1], LastCreated(steps);
    var log := Reached(front).log;
    GivenIsBelow(front);
    AllCreatedIds(log, steps[|steps| - 1]);
    PastIsHighWater(front, log);
    IntervalsApart(Given(front), HighWater(front), Ids(created), log.history.next, |created|);
  }

  lemma AllCreatedIds(before: Log, step: Step)
    requires Admissible(step)
    ensures Between(Ids(Created(before, step)), before.history.next, |Created(before, step)|)
  {
    forall id: nat
      ensures id in Ids(Created(before, step)) <==>
              before.history.next <= id < before.history.next + |Created(before, step)|
    {
      CreatedIds(before, step, id);
    }
  }

  lemma IntervalsApart(low: set<nat>, high: nat, created: set<nat>, next: nat, count: nat)
    requires Below(low, high) && Between(created, next, count)
    ensures low !! created <==> count == 0 || high <= next
  {
    if count > 0 && next < high {
      assert next in low && next in created;
    }
  }

  /**
   * Over every run of observing, marking, clearing, saving and restarting: no id is given out twice
   * exactly when every step that creates events follows a restart that numbered on, or none; which
   * is so whenever every restart is clean.
   */
  lemma {:induction false} IdsNeverReusedExactly(steps: seq<Step>)
    requires AllAdmissible(steps)
    ensures NoneTwice(steps) <==> CreatesOn(steps)
    ensures CleanRestarts(steps) ==> NoneTwice(steps)
  {
    if steps != [] {
      var front := steps[..|steps| - 1];
      IdsNeverReusedExactly(front);
      CreatedDistinct(Reached(front).log, steps[|steps| - 1]);
      CreatesNewExactly(steps);
      AlwaysPastExactly(front);
      if CreatesOn(front) {
        PastIsNumberedOn(front);
      }
    }
  }
}
