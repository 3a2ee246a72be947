/** Runs in which a file is refused or never written, and an event id is given out a second time. */
module AttentionRestarts {
  import opened Base
  import opened Federation
  import opened Attention
  import opened AttentionLaws
  import opened AttentionRuns

  // ----- one step more -----

  lemma {:induction false} Extended(steps: seq<Step>, step: Step, longer: seq<Step>)
    requires AllAdmissible(steps) && Admissible(step) && longer == steps + [step]
    ensures longer != [] && longer[..|longer| - 1] == steps && longer[|longer| - 1] == step
    ensures AllAdmissible(longer)
  {
  }

  lemma {:induction false} ObservedNext(steps: seq<Step>, longer: seq<Step>, state: FederationState, clock: nat -> nat)
    requires AllAdmissible(steps) && state.Qualified() && longer == steps + [Observe(state, clock)]
    ensures AllAdmissible(longer) && Given(longer) == Given(steps) + Ids(LastCreated(longer))
    ensures Reached(longer).log == Observed(Reached(steps).log, state, clock)
    ensures LastCreated(longer)
         == Minted(Reached(steps).log.history.next, Emitted(Reached(steps).log.observations, state), clock)
  {
    Extended(steps, Observe(state, clock), longer);
  }

  lemma {:induction false} GivenGrows(steps: seq<Step>, step: Step, longer: seq<Step>)
    requires AllAdmissible(steps) && Admissible(step) && longer == steps + [step]
    ensures AllAdmissible(longer) && Given(steps) <= Given(longer)
    ensures Reached(longer) == Next(Reached(steps), step)
  {
    Extended(steps, step, longer);
  }

  /** A start that finds a file too large goes on from nothing. */
  lemma RefusedStartsOver(before: Daemon, saved: Daemon, restarted: Daemon)
    requires BothValid(before) && |before.log.observations| > MAX_AGENT_OBSERVATIONS
    requires saved == Next(before, Save(true)) && restarted == Next(saved, Restart(true))
    ensures restarted.log == NOTHING
  {
    assert saved.disk == Some(before.log);
    LoadedIs(saved.disk, true);
  }

  lemma {:induction false} SavedAndRefused(steps: seq<Step>, saved: seq<Step>, restarted: seq<Step>)
    requires AllAdmissible(steps) && |Reached(steps).log.observations| > MAX_AGENT_OBSERVATIONS
    requires saved == steps + [Save(true)] && restarted == saved + [Restart(true)]
    ensures AllAdmissible(restarted) && Given(steps) <= Given(restarted)
    ensures Reached(restarted).log == NOTHING
  {
    RunKeeps(steps);
    GivenGrows(steps, Save(true), saved);
    GivenGrows(saved, Restart(true), restarted);
    RefusedStartsOver(Reached(steps), Reached(saved), Reached(restarted));
  }

  lemma NothingToCompare(state: FederationState)
    requires state.Qualified()
    ensures Emitted(map[], state) == []
  {
    EmittedExactly(map[], state);
    NoMentionNoChange(Emitted(map[], state));
  }

  /** Two observations from nothing: the first only remembers, the second creates events from id 0 on. */
  lemma {:induction false} TwoObservations(
    steps: seq<Step>, once: seq<Step>, twice: seq<Step>, a: FederationState, b: FederationState, clock: nat -> nat)
    requires AllAdmissible(steps) && Reached(steps).log == NOTHING && a.Qualified() && b.Qualified()
    requires Emitted(Remembered(a, map[]), b) != []
    requires once == steps + [Observe(a, clock)] && twice == once + [Observe(b, clock)]
    ensures AllAdmissible(once) && AllAdmissible(twice) && Given(steps) <= Given(once)
    ensures 0 in Ids(LastCreated(twice)) && 0 in Given(twice)
    ensures Reached(twice).log.observations == Remembered(b, Remembered(a, map[]))
  {
    ObservedNext(steps, once, a, clock);
    NothingToCompare(a);
    ObservedNext(once, twice, b, clock);
    MintedAt(0, Emitted(Remembered(a, map[]), b), clock, 0);
  }

  /** The last step of the run gives out an id that was given out before. */
  ghost predicate GivesAgain(steps: seq<Step>, id: nat) {
    && AllAdmissible(steps) && steps != []
    && id in Given(steps[..|steps| - 1]) && id in Ids(LastCreated(steps))
  }

  /** Observe twice, save and restart; then observe the same again. */
  ghost predicate Rerun(steps: seq<Step>, a: FederationState, b: FederationState, clock: nat -> nat) {
    steps == [Observe(a, clock), Observe(b, clock), Save(true), Restart(true), Observe(a, clock), Observe(b, clock)]
  }

  /** When what was written is too large to be accepted, the numbering starts over. */
  lemma {:induction false} RefusedFileRepeatsIds(
    steps: seq<Step>, a: FederationState, b: FederationState, clock: nat -> nat)
    requires Rerun(steps, a, b, clock) && a.Qualified() && b.Qualified()
    requires Emitted(Remembered(a, map[]), b) != []
    requires |Remembered(b, Remembered(a, map[]))| > MAX_AGENT_OBSERVATIONS
    ensures GivesAgain(steps, 0) && !NoneTwice(steps)
  {
    var s0, s1, s2, s3, s4, s5 := Stops(steps, a, b, clock);
    TwoObservations(s0, s1, s2, a, b, clock);
    SavedAndRefused(s2, s3, s4);
    TwoObservations(s4, s5, steps, a, b, clock);
  }

  lemma {:induction false} Stops(steps: seq<Step>, a: FederationState, b: FederationState, clock: nat -> nat)
    returns (s0: seq<Step>, s1: seq<Step>, s2: seq<Step>, s3: seq<Step>, s4: seq<Step>, s5: seq<Step>)
    requires Rerun(steps, a, b, clock)
    ensures AllAdmissible(s0) && Reached(s0) == FIRST
    ensures s1 == s0 + [Observe(a, clock)] && s2 == s1 + [Observe(b, clock)] && s3 == s2 + [Save(true)]
    ensures s4 == s3 + [Restart(true)] && s5 == s4 + [Observe(a, clock)] && steps == s5 + [Observe(b, clock)]
    ensures |steps| > 0 && steps[..|steps| - 1] == s5
  {
    s0 := steps[..0];
    s1, s2, s3, s4, s5 := steps[..1], steps[..2], steps[..3], steps[..4], steps[..5];
  }

  /** Observe twice and fail to save; then restart and observe the same again. */
  ghost predicate UnsavedRerun(steps: seq<Step>, a: FederationState, b: FederationState, clock: nat -> nat) {
    steps == [Observe(a, clock), Observe(b, clock), Save(false), Restart(true), Observe(a, clock), Observe(b, clock)]
  }

  lemma UnsavedStops(steps: seq<Step>, a: FederationState, b: FederationState, clock: nat -> nat)
    returns (s0: seq<Step>, s1: seq<Step>, s2: seq<Step>, s3: seq<Step>, s4: seq<Step>, s5: seq<Step>)
    requires UnsavedRerun(steps, a, b, clock)
    ensures AllAdmissible(s0) && Reached(s0) == FIRST
    ensures s1 == s0 + [Observe(a, clock)] && s2 == s1 + [Observe(b, clock)] && s3 == s2 + [Save(false)]
    ensures s4 == s3 + [Restart(true)] && s5 == s4 + [Observe(a, clock)] && steps == s5 + [Observe(b, clock)]
    ensures |steps| > 0 && steps[..|steps| - 1] == s5
  {
    s0 := steps[..0];
    s1, s2, s3, s4, s5 := steps[..1], steps[..2], steps[..3], steps[..4], steps[..5];
  }

  lemma {:induction false} DiskStays(steps: seq<Step>, longer: seq<Step>, state: FederationState, clock: nat -> nat)
    requires AllAdmissible(steps) && state.Qualified() && longer == steps + [Observe(state, clock)]
    ensures AllAdmissible(longer) && Reached(longer).disk == Reached(steps).disk
  {
    GivenGrows(steps, Observe(state, clock), longer);
  }

  /** A start that finds no file goes on from nothing. */
  lemma MissingStartsOver(before: Daemon, unsaved: Daemon, restarted: Daemon)
    requires before.disk.None? && unsaved == Next(before, Save(false)) && restarted == Next(unsaved, Restart(true))
    ensures restarted.log == NOTHING
  {
  }

  lemma {:induction false} UnsavedStartsOver(steps: seq<Step>, unsaved: seq<Step>, restarted: seq<Step>)
    requires AllAdmissible(steps) && Reached(steps).disk.None?
    requires unsaved == steps + [Save(false)] && restarted == unsaved + [Restart(true)]
    ensures AllAdmissible(restarted) && Given(steps) <= Given(restarted)
    ensures Reached(restarted).log == NOTHING
  {
    GivenGrows(steps, Save(false), unsaved);
    GivenGrows(unsaved, Restart(true), restarted);
    MissingStartsOver(Reached(steps), Reached(unsaved), Reached(restarted));
  }

  /** When a write fails, any two federations whose difference is an event repeat its id after a restart. */
  lemma {:induction false} FailedWriteRepeatsIds(
    steps: seq<Step>, a: FederationState, b: FederationState, clock: nat -> nat)
    requires UnsavedRerun(steps, a, b, clock) && a.Qualified() && b.Qualified()
    requires Emitted(Remembered(a, map[]), b) != []
    ensures GivesAgain(steps, 0) && !NoneTwice(steps)
  {
    var s0, s1, s2, s3, s4, s5 := UnsavedStops(steps, a, b, clock);
    TwoObservations(s0, s1, s2, a, b, clock);
    DiskStays(s0, s1, a, clock);
    DiskStays(s1, s2, b, clock);
    UnsavedStartsOver(s2, s3, s4);
    TwoObservations(s4, s5, steps, a, b, clock);
  }

  // ----- an input with 4097 observations -----

  const CROWD: nat := MAX_AGENT_OBSERVATIONS + 1

  const HOME: TargetSession := TargetSession("t", "s")

  function Pane(i: nat): PaneId
    requires i < CROWD
  {
    QualifiedId("t", "s", [(0x100 + i) as char])
  }

  function Panes(n: nat): set<PaneId>
    requires n <= CROWD
  {
    if n == 0 then {} else Panes(n - 1) + {Pane(n - 1)}
  }

  lemma {:induction false} PanesAreMany(n: nat)
    requires n <= CROWD
    ensures |Panes(n)| == n
    ensures forall p | p in Panes(n) :: p.Owner() == HOME && exists i | 0 <= i < n :: p == Pane(i)
    ensures n > 0 ==> Pane(0) in Panes(n)
  {
    if n > 0 {
      PanesAreMany(n - 1);
    }
  }

  function Sitting(p: PaneId, ready: bool): AgentState {
    AgentState(p, Some(""), None, Some(""), Some(ready), None)
  }

  function Seats(firstReady: bool): map<PaneId, AgentState> {
    map p | p in Panes(CROWD) :: Sitting(p, firstReady || p != Pane(0))
  }

  function Home(agents: map<PaneId, AgentState>): FederationState {
    FederationState(map[HOME := Target(HOME, Live, 0, Some(Snapshot(map[], map[], map[], agents)))])
  }

  /** One live target with an agent in each pane, all ready except perhaps the first. */
  function Crowd(firstReady: bool): FederationState { Home(Seats(firstReady)) }

  lemma HomeIsListed(agents: map<PaneId, AgentState>)
    requires forall p | p in agents :: p.Owner() == HOME && agents[p].pane == p
    ensures Home(agents).Qualified() && Home(agents).AgentsAt(HOME) == agents
    ensures Current(Home(agents)).Keys == agents.Keys
  {
    var state := Home(agents);
    assert state.Qualified() && Reporting(state, HOME);
    forall p ensures p in Listed(state) <==> p in agents {
      if p in Listed(state) {
        assert p.Owner() == HOME;
      }
    }
  }

  lemma SeatsAreHome(firstReady: bool)
    ensures Seats(firstReady).Keys == Panes(CROWD)
    ensures forall p | p in Seats(firstReady) :: p.Owner() == HOME && Seats(firstReady)[p].pane == p
  {
    PanesAreMany(CROWD);
  }

  lemma CrowdIsListed(firstReady: bool)
    ensures Crowd(firstReady).Qualified() && Crowd(firstReady).AgentsAt(HOME) == Seats(firstReady)
    ensures Current(Crowd(firstReady)).Keys == Panes(CROWD)
  {
    SeatsAreHome(firstReady);
    HomeIsListed(Seats(firstReady));
  }

  lemma FirstReadiness(state: FederationState, firstReady: bool)
    requires state == Crowd(firstReady) && state.Qualified()
    ensures Pane(0) in Current(state) && Current(state)[Pane(0)].interactiveReady == firstReady
  {
    PanesAreMany(CROWD);
    CrowdIsListed(firstReady);
    assert state.AgentsAt(HOME)[Pane(0)] == Sitting(Pane(0), firstReady);
  }

  lemma SomethingMoves(held: map<PaneId, Observation>, state: FederationState, p: PaneId)
    requires state.Qualified() && Keyed(held) && p in held && p in Current(state)
    requires !held[p].interactiveReady && Current(state)[p].interactiveReady
    ensures Emitted(held, state) != []
  {
    EmittedExactly(held, state);
    assert Mentions(Emitted(held, state), p);
  }

  lemma ManyRemembered(held: map<PaneId, Observation>, state: FederationState)
    requires state.Qualified() && Keyed(held)
    ensures |Remembered(state, held)| >= |Current(state)|
  {
    RememberedShape(state, held);
    MoreIsLarger(Current(state).Keys, Remembered(state, held).Keys);
  }

  lemma MoreIsLarger<T>(a: set<T>, b: set<T>)
    requires a <= b
    ensures |a| <= |b|
  {
    assert b == a + (b - a);
  }

  /** 4097 agents of which one becomes ready: id 0 is given out before the restart and again after it. */
  lemma CrowdRepeatsIds(steps: seq<Step>, clock: nat -> nat)
    requires Rerun(steps, Crowd(false), Crowd(true), clock)
    ensures GivesAgain(steps, 0) && !NoneTwice(steps)
  {
    var a, b := Crowd(false), Crowd(true);
    CrowdCounts(a, b);
    RefusedFileRepeatsIds(steps, a, b, clock);
  }

  lemma CrowdCounts(a: FederationState, b: FederationState)
    requires a == Crowd(false) && b == Crowd(true)
    ensures a.Qualified() && b.Qualified()
    ensures Emitted(Remembered(a, map[]), b) != []
    ensures |Remembered(b, Remembered(a, map[]))| > MAX_AGENT_OBSERVATIONS
  {
    CrowdIsListed(false);
    CrowdIsListed(true);
    FirstReadiness(a, false);
    FirstReadiness(b, true);
    MovesAndMany(a, b, Pane(0));
    PanesAreMany(CROWD);
  }

  lemma MovesAndMany(a: FederationState, b: FederationState, p: PaneId)
    requires a.Qualified() && b.Qualified() && p in Current(a) && p in Current(b)
    requires !Current(a)[p].interactiveReady && Current(b)[p].interactiveReady
    ensures Emitted(Remembered(a, map[]), b) != []
    ensures |Remembered(b, Remembered(a, map[]))| >= |Current(b).Keys|
  {
    var held := Remembered(a, map[]);
    RememberedShape(a, map[]);
    ManyRemembered(held, b);
    SomethingMoves(held, b, p);
  }
}
