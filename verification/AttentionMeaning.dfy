/** What attention events say: their kinds, what they tell of an agent, and what marking and reading back do to them. */
module AttentionMeaning {
  import opened Base
  import opened Ordering
  import opened Federation
  import opened Attention
  import opened AttentionLaws
  import opened AttentionRuns

  // ----- words -----

  lemma {:induction false} NamedSomewhere(word: string, vocabulary: seq<(string, Phase)>) returns (k: nat)
    requires exists j :: 0 <= j < |vocabulary| && vocabulary[j].0 == word
    ensures k < |vocabulary| && vocabulary[k] == (word, PhaseNamed(word, vocabulary))
  {
    if vocabulary[0].0 == word {
      k := 0;
    } else {
      var j :| 0 <= j < |vocabulary| && vocabulary[j].0 == word;
      assert vocabulary[1..][j - 1].0 == word;
      k := NamedSomewhere(word, vocabulary[1..]);
      k := k + 1;
    }
  }

  lemma {:induction false} NamedNowhere(word: string, vocabulary: seq<(string, Phase)>)
    requires forall j | 0 <= j < |vocabulary| :: vocabulary[j].0 != word
    ensures PhaseNamed(word, vocabulary) == Unknown
  {
    if vocabulary != [] {
      NamedNowhere(word, vocabulary[1..]);
    }
  }

  const ASKING := ["blocked", "waiting", "waiting_for_input", "needs_input", "ready"]
  const WORKING := ["working", "running", "busy", "active"]
  const IDLE := ["idle", "completed", "done"]

  lemma WordsApart()
    ensures forall w :: !(w in ASKING && w in WORKING) && !(w in ASKING && w in IDLE) && !(w in WORKING && w in IDLE)
  {
    assert forall w | w in ASKING :: w[0] == 'b' || w[0] == 'w' || w[0] == 'n' || w[0] == 'r';
    assert ASKING[0][1] == 'l' && "busy"[1] == 'u' && "waiting"[1] == 'a' && "working"[1] == 'o';
    assert "waiting_for_input"[1] == 'a' && "ready"[1] == 'e' && "running"[1] == 'u';
  }

  lemma VocabularyLists()
    ensures |VOCABULARY| == 12
    ensures forall k | 0 <= k < 5 :: VOCABULARY[k] == (ASKING[k], Attention.Attention)
    ensures forall k | 0 <= k < 4 :: VOCABULARY[5 + k] == (WORKING[k], Working)
    ensures forall k | 0 <= k < 3 :: VOCABULARY[9 + k] == (IDLE[k], Idle)
  {
  }

  /** Every word of a phase's list names that phase, and no other word does. */
  lemma WordMeans(word: string)
    ensures var phase := PhaseNamed(word, VOCABULARY);
      && (phase == Attention.Attention <==> word in ASKING)
      && (phase == Working <==> word in WORKING)
      && (phase == Idle <==> word in IDLE)
  {
    VocabularyLists();
    WordsApart();
    if word in ASKING || word in WORKING || word in IDLE {
      Listed(word);
      var k := NamedSomewhere(word, VOCABULARY);
      assert k < 5 ==> word == ASKING[k];
      assert 5 <= k < 9 ==> word == WORKING[k - 5];
      assert 9 <= k ==> word == IDLE[k - 9];
    } else {
      forall j | 0 <= j < |VOCABULARY| ensures VOCABULARY[j].0 != word {
        assert VOCABULARY[j].0 == if j < 5 then ASKING[j] else if j < 9 then WORKING[j - 5] else IDLE[j - 9];
      }
      NamedNowhere(word, VOCABULARY);
    }
  }

  lemma Listed(word: string)
    requires word in ASKING || word in WORKING || word in IDLE
    ensures exists j :: 0 <= j < |VOCABULARY| && VOCABULARY[j].0 == word
  {
    VocabularyLists();
    if k :| 0 <= k < |ASKING| && ASKING[k] == word {
      assert VOCABULARY[k].0 == word;
    } else if k :| 0 <= k < |WORKING| && WORKING[k] == word {
      assert VOCABULARY[5 + k].0 == word;
    } else {
      var k :| 0 <= k < |IDLE| && IDLE[k] == word;
      assert VOCABULARY[9 + k].0 == word;
    }
  }

  /** The phase an agent is in, by what it reports in whatever case, and by its being ready for input. */
  lemma PhaseMeans(status: string, ready: bool)
    ensures var phase, word := AgentPhase(status, ready), AsciiLower(status);
      && (phase == Attention.Attention <==> ready || word in ASKING)
      && (phase == Working <==> !ready && word in WORKING)
      && (phase == Idle <==> !ready && word in IDLE)
  {
    WordMeans(AsciiLower(status));
  }

  /** Only the twenty-six capitals are folded. */
  lemma {:induction false} LowerMeans(s: string, i: nat)
    requires i < |s|
    ensures |AsciiLower(s)| == |s|
    ensures AsciiLower(s)[i] == if 'A' <= s[i] <= 'Z' then s[i] - 'A' + 'a' else s[i]
  {
    if i > 0 {
      LowerMeans(s[1..], i - 1);
    }
  }

  /** As many characters as fit, each as it was, or a space for a control character. */
  lemma {:induction false} BoundedMeans(value: string, limit: nat, i: nat)
    ensures |BoundedMetadata(value, limit)| == if |value| <= limit then |value| else limit
    ensures i < |BoundedMetadata(value, limit)| ==>
      BoundedMetadata(value, limit)[i]
      == if value[i] < ' ' || '\U{007F}' <= value[i] <= '\U{009F}' then ' ' else value[i]
  {
    if value != "" && limit > 0 {
      BoundedMeans(value[1..], limit - 1, if i > 0 then i - 1 else 0);
    }
  }

  // ----- kinds -----

  /** The kind that tells what became of an agent that is still there. */
  ghost predicate Tells(kind: EventKind, before: Observation, now: Observation) {
    var was, phase := AgentPhase(before.status, before.interactiveReady), AgentPhase(now.status, now.interactiveReady);
    && (kind == NeedsAttention <==> phase == Attention.Attention)
    && (kind == StartedWorking <==> phase == Working)
    && (kind == Completed <==> phase == Idle && (was == Attention.Attention || was == Working))
    && (kind == StatusChanged <==> phase == Unknown || (phase == Idle && was != Attention.Attention && was != Working))
    && kind != Disappeared
  }

  lemma TransitionTells(before: Observation, now: Observation)
    ensures TransitionKind(before, now).Some? <==> Moved(before, now)
    ensures TransitionKind(before, now).Some? ==> Tells(TransitionKind(before, now).value, before, now)
  {
  }

  /** What a change says of the pane it is about. */
  ghost predicate Says(
    change: (Observation, EventKind), held: map<PaneId, Observation>, current: map<PaneId, Observation>)
  {
    var p := change.0.pane;
    && p in held
    && if p in current then change.0 == current[p] && Moved(held[p], current[p]) && Tells(change.1, held[p], current[p])
       else change == (held[p], Disappeared)
  }

  lemma {:induction false} ChangesSay(
    order: seq<PaneId>, n: nat, held: map<PaneId, Observation>, current: map<PaneId, Observation>)
    requires n <= |order| && Taken(order, n) <= current.Keys && Keyed(current)
    ensures forall c | c in Changes(order, n, held, current) :: Says(c, held, current)
  {
    if n > 0 {
      ChangesSay(order, n - 1, held, current);
      var o := current[order[n - 1]];
      if o.pane in held {
        TransitionTells(held[o.pane], o);
      }
    }
  }

  lemma {:induction false} DeparturesSay(
    order: seq<PaneId>, n: nat, held: map<PaneId, Observation>, current: map<PaneId, Observation>)
    requires n <= |order| && Taken(order, n) <= held.Keys && Taken(order, n) !! current.Keys && Keyed(held)
    ensures forall c | c in Departures(order, n, held) :: Says(c, held, current)
  {
    if n > 0 {
      DeparturesSay(order, n - 1, held, current);
    }
  }

  /**
   * Everything one observation pushes is of a pane that was held. Of one that is gone it says so, with
   * what was last seen; of one still there it says what is seen now, in the kind its phases call for.
   */
  lemma EmittedSays(held: map<PaneId, Observation>, state: FederationState)
    requires state.Qualified() && Keyed(held)
    ensures forall c | c in Emitted(held, state) :: Says(c, held, Current(state))
  {
    var order, gone := CurrentPanes(state), VanishedPanes(state, held);
    CurrentKeyed(state);
    ChangesSay(order, |order|, held, Current(state));
    DeparturesSay(gone, |gone|, held, Current(state));
  }

  /** What is current is what targets list that are live and have something to show. */
  lemma CurrentMeans(state: FederationState, p: PaneId)
    requires state.Qualified()
    ensures p in Current(state) <==>
      var t := p.Owner();
      && t in state.targets && state.targets[t].connection == Live && state.targets[t].snapshot.Some?
      && p in state.targets[t].snapshot.value.agents
    ensures p in Current(state) ==>
      var snapshot := state.targets[p.Owner()].snapshot.value;
      Current(state)[p] == ObservationOf(snapshot.agents[p], snapshot)
  {
  }

  /** Changes of `order` stand in its order. */
  ghost predicate Along(changes: seq<(Observation, EventKind)>) {
    forall i, j | 0 <= i < j < |changes| :: IdLess(changes[i].0.pane, changes[j].0.pane)
  }

  lemma AlongGrows(changes: seq<(Observation, EventKind)>, more: seq<(Observation, EventKind)>)
    requires Along(changes) && |more| <= 1
    requires more != [] ==> forall c | c in changes :: IdLess(c.0.pane, more[0].0.pane)
    ensures Along(changes + more)
  {
  }

  lemma {:induction false} ChangesAlong(
    order: seq<PaneId>, n: nat, held: map<PaneId, Observation>, current: map<PaneId, Observation>)
    requires n <= |order| && Taken(order, n) <= current.Keys && Increasing(order, IdLess) && Keyed(current)
    ensures Along(Changes(order, n, held, current))
    ensures forall c | c in Changes(order, n, held, current) :: c.0.pane in Taken(order, n)
  {
    if n > 0 {
      ChangesAlong(order, n - 1, held, current);
      IdStep(order, n - 1);
      AlongGrows(Changes(order, n - 1, held, current), Change(held, current[order[n - 1]]));
    }
  }

  lemma {:induction false} DeparturesAlong(order: seq<PaneId>, n: nat, held: map<PaneId, Observation>)
    requires n <= |order| && Taken(order, n) <= held.Keys && Increasing(order, IdLess) && Keyed(held)
    ensures Along(Departures(order, n, held))
    ensures forall c | c in Departures(order, n, held) :: c.0.pane in Taken(order, n)
  {
    if n > 0 {
      DeparturesAlong(order, n - 1, held);
      IdStep(order, n - 1);
      AlongGrows(Departures(order, n - 1, held), [(held[order[n - 1]], Disappeared)]);
    }
  }

  /** An observation pushes what changed before what went, each pane by pane in the order of their ids. */
  lemma EmittedInOrder(held: map<PaneId, Observation>, state: FederationState, i: nat, j: nat)
    requires state.Qualified() && Keyed(held) && i < j < |Emitted(held, state)|
    ensures var p, q := Emitted(held, state)[i].0.pane, Emitted(held, state)[j].0.pane;
      if p in Current(state) <==> q in Current(state) then IdLess(p, q) else p in Current(state)
  {
    var order, gone := CurrentPanes(state), VanishedPanes(state, held);
    CurrentKeyed(state);
    ChangesAlong(order, |order|, held, Current(state));
    DeparturesAlong(gone, |gone|, held);
    JoinedAlong(Changes(order, |order|, held, Current(state)), Departures(gone, |gone|, held),
                Current(state).Keys, Taken(gone, |gone|), i, j);
  }

  lemma JoinedAlong(
    a: seq<(Observation, EventKind)>, b: seq<(Observation, EventKind)>, here: set<PaneId>, gone: set<PaneId>,
    i: nat, j: nat)
    requires Along(a) && Along(b) && here !! gone && i < j < |a + b|
    requires (forall c | c in a :: c.0.pane in here) && forall c | c in b :: c.0.pane in gone
    ensures var p, q := (a + b)[i].0.pane, (a + b)[j].0.pane;
      if p in here <==> q in here then IdLess(p, q) else p in here
  {
    assert i < |a| ==> a[i] in a;
    assert j < |a| ==> a[j] in a;
    assert i >= |a| ==> b[i - |a|] in b;
    assert j >= |a| ==> b[j - |a|] in b;
  }

  // ----- the events of a run -----

  lemma {:induction false} MintedTells(
    next: nat, changes: seq<(Observation, EventKind)>, clock: nat -> nat, i: nat)
    requires i < |changes|
    ensures var e, o := Minted(next, changes, clock)[i], changes[i].0;
      && e.pane == o.pane && e.agent == o.agent && e.workspace == o.workspace && e.status == o.status
      && e.kind == changes[i].1 && e.id == next + i && e.occurredAt == clock(e.id) && e.unread
  {
    var last := |changes| - 1;
    if i < last {
      MintedTells(next, changes[..last], clock, i);
    }
  }

  /** What an event tells of an agent, before anyone has seen it. */
  ghost predicate Describes(e: Event, o: Observation) {
    e.pane == o.pane && e.agent == o.agent && e.workspace == o.workspace && e.status == o.status && e.unread
  }

  /** An event of an observation describes what is seen of its pane now, or what was last seen of one that is gone. */
  ghost predicate EventSays(e: Event, held: map<PaneId, Observation>, current: map<PaneId, Observation>) {
    && e.pane in held
    && if e.pane in current then Describes(e, current[e.pane]) && Tells(e.kind, held[e.pane], current[e.pane])
       else Describes(e, held[e.pane]) && e.kind == Disappeared
  }

  /** Every event a run creates says, truly and by its kind, what became of the agent in its pane. */
  lemma CreatedSays(steps: seq<Step>, e: Event)
    requires AllAdmissible(steps) && steps != [] && e in LastCreated(steps)
    ensures var last, before := steps[|steps| - 1], Reached(steps[..|steps| - 1]).log;
      last.Observe? && last.state.Qualified() && EventSays(e, before.observations, Current(last.state))
  {
    var last, before := steps[|steps| - 1], Reached(steps[..|steps| - 1]).log;
    RunKeeps(steps[..|steps| - 1]);
    var changes := Emitted(before.observations, last.state);
    EmittedSays(before.observations, last.state);
    var i :| 0 <= i < |LastCreated(steps)| && LastCreated(steps)[i] == e;
    MintedTells(before.history.next, changes, last.clock, i);
    assert changes[i] in changes;
  }

  // ----- marking -----

  /** Marking a pane, or everything, leaves each event where it is and changes only whether it has been seen. */
  lemma SeenMeans(before: Daemon, step: Step, i: nat)
    requires Admissible(step) && (step.SeePane? || step.SeeAll?) && i < |before.log.history.events|
    ensures var was, after := before.log.history.events, Next(before, step).log.history.events;
      && |after| == |was| && after[i].(unread := was[i].unread) == was[i]
      && (after[i].unread <==> was[i].unread && step.SeePane? && was[i].pane != step.pane)
  {
  }

  /** Clearing leaves exactly the unread events. */
  lemma ClearMeans(before: Daemon, e: Event)
    ensures e in Next(before, ClearSeen).log.history.events <==> e in before.log.history.events && e.unread
  {
    UnreadKeeps(before.log.history.events);
  }

  /** Neither touches what is remembered, the numbering or the file. */
  lemma MarkingKeepsTheRest(before: Daemon, step: Step)
    requires step.SeePane? || step.SeeAll? || step.ClearSeen?
    ensures var after := Next(before, step);
      after == before.(log := before.log.(history := before.log.history.(events := after.log.history.events)))
  {
  }

  // ----- what a sighting tells -----

  /** An agent is seen by its own name, else its kind, else its pane's, with the status it or its pane gives. */
  lemma SightingMeans(agent: AgentState, snapshot: Snapshot)
    ensures var o, pane := ObservationOf(agent, snapshot), PaneOf(agent, snapshot);
      && o.pane == agent.pane && (o.interactiveReady <==> agent.interactiveReady == Some(true))
      && (agent.name.Some? ==> o.agent == BoundedMetadata(agent.name.value, 128))
      && (agent.name.None? && agent.agent.Some? ==> o.agent == BoundedMetadata(agent.agent.value, 128))
      && (agent.name.None? && agent.agent.None? && pane.Some? && pane.value.agent.Some? ==>
            o.agent == BoundedMetadata(pane.value.agent.value, 128))
      && (agent.status.Some? ==> o.status == BoundedMetadata(agent.status.value, 64))
      && (agent.status.None? && pane.Some? && pane.value.agentStatus.Some? ==>
            o.status == BoundedMetadata(pane.value.agentStatus.value, 64))
      && (agent.status.None? && (pane.None? || pane.value.agentStatus.None?) ==>
            o.status == BoundedMetadata("unknown", 64))
  {
  }

  /** The workspace named is the one its pane is in, by its caption if the snapshot gives it one. */
  lemma WorkspaceMeans(agent: AgentState, snapshot: Snapshot)
    ensures var named, pane := WorkspaceLabel(PaneOf(agent, snapshot), snapshot), PaneOf(agent, snapshot);
      && ObservationOf(agent, snapshot).workspace == BoundedMetadata(named, 128)
      && (pane.None? || pane.value.workspace.None? ==> named == "unassigned")
      && (pane.Some? && pane.value.workspace.Some? ==>
            var w := pane.value.workspace.value;
            if w in snapshot.workspaces && snapshot.workspaces[w].caption.Some?
            then Some(named) == snapshot.workspaces[w].caption else named == w.resource)
  {
  }

  // ----- reading back -----

  /** A file is accepted exactly when its version and its counts are right and no pane is observed twice. */
  lemma RestoreAccepts(p: Persisted)
    ensures Restore(p).Ok? <==>
      p.version == 1 && |p.observations| <= 4096 && |p.events| <= 256 && DistinctPanes(p.observations)
  {
  }

  lemma {:induction false} ByPaneMeans(observations: seq<Observation>)
    requires DistinctPanes(observations)
    ensures forall o | o in observations :: o.pane in ByPane(observations) && ByPane(observations)[o.pane] == o
    ensures forall p | p in ByPane(observations) :: ByPane(observations)[p] in observations
  {
    if observations != [] {
      var last := |observations| - 1;
      ByPaneMeans(observations[..last]);
      forall o | o in observations
        ensures o.pane in ByPane(observations) && ByPane(observations)[o.pane] == o
      {
        var i :| 0 <= i < |observations| && observations[i] == o;
        assert i < last ==> o in observations[..last] && observations[i].pane != observations[last].pane;
      }
    }
  }

  /** What is read from it is every observation and event in it, numbering on past them all. */
  lemma RestoreMeans(p: Persisted)
    requires Restore(p).Ok?
    ensures var log := Restore(p).value;
      && log.history.events == p.events && p.next <= log.history.next
      && (forall e | e in p.events :: e.id < log.history.next)
      && (forall o | o in p.observations :: o.pane in log.observations && log.observations[o.pane] == o)
      && (forall q | q in log.observations :: log.observations[q] in p.observations)
  {
    ByPaneMeans(p.observations);
  }
}
