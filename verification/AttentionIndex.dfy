/** The attention index as the object a daemon updates in place, and a client mirrors. */
module AttentionIndex {
  import opened Base
  import opened Ordering
  import opened Federation
  import opened Attention

  predicate NewTo(held: map<PaneId, Observation>, observation: Observation) {
    observation.pane in held ==> held[observation.pane] != observation
  }

  /** Whether any of the first `n` panes was seen anew. */
  ghost predicate Differs(
    order: seq<PaneId>, n: nat, held: map<PaneId, Observation>, current: map<PaneId, Observation>)
    requires n <= |order| && Taken(order, n) <= current.Keys
  {
    n > 0 && (Differs(order, n - 1, held, current) || NewTo(held, current[order[n - 1]]))
  }

  lemma {:induction false} DiffersMeans(
    order: seq<PaneId>, n: nat, held: map<PaneId, Observation>, current: map<PaneId, Observation>)
    requires n <= |order| && Taken(order, n) <= current.Keys
    requires forall p | p in current :: current[p].pane == p
    ensures Differs(order, n, held, current) <==>
            exists p :: p in Taken(order, n) && (p in held ==> held[p] != current[p])
  {
    if n > 0 {
      DiffersMeans(order, n - 1, held, current);
    }
  }

  lemma DiffersMoves(order: seq<PaneId>, held: map<PaneId, Observation>, current: map<PaneId, Observation>)
    requires Taken(order, |order|) == current.Keys
    requires forall p | p in current :: current[p].pane == p
    ensures Differs(order, |order|, held, current) <==> held + current != held
  {
    DiffersMeans(order, |order|, held, current);
    if Differs(order, |order|, held, current) {
      var p :| p in current && (p in held ==> held[p] != current[p]);
      assert (held + current)[p] == current[p];
    }
  }

  /** What is held once the first `n` panes have been seen. */
  ghost function Overlaid(
    held: map<PaneId, Observation>, current: map<PaneId, Observation>, order: seq<PaneId>, n: nat)
    : map<PaneId, Observation>
    requires n <= |order| && Taken(order, n) <= current.Keys
  {
    if n == 0 then held else Overlaid(held, current, order, n - 1)[order[n - 1] := current[order[n - 1]]]
  }

  lemma {:induction false} OverlaidAt(
    held: map<PaneId, Observation>, current: map<PaneId, Observation>, order: seq<PaneId>, n: nat, p: PaneId)
    requires n <= |order| && Taken(order, n) <= current.Keys
    ensures var seen := Overlaid(held, current, order, n);
      && (p in seen <==> p in held || p in Taken(order, n))
      && (p in seen ==> seen[p] == if p in Taken(order, n) then current[p] else held[p])
  {
    if n > 0 {
      OverlaidAt(held, current, order, n - 1, p);
    }
  }

  lemma OverlaidAll(held: map<PaneId, Observation>, current: map<PaneId, Observation>, order: seq<PaneId>)
    requires Taken(order, |order|) == current.Keys
    ensures Overlaid(held, current, order, |order|) == held + current
  {
    var seen := Overlaid(held, current, order, |order|);
    forall p
      ensures (p in seen <==> p in held + current) && (p in seen ==> seen[p] == (held + current)[p])
    {
      OverlaidAt(held, current, order, |order|, p);
    }
    MapsAgree(seen, held + current);
  }

  /** Everything gathered so far is as a reporting session lists it. */
  ghost predicate Sighted(state: FederationState, current: map<PaneId, Observation>)
    requires state.Qualified()
  {
    forall p | p in current :: p in Listed(state) && current[p] == Sighting(state, p)
  }

  lemma OneMoreSighted(state: FederationState, key: TargetSession, current: map<PaneId, Observation>, p: PaneId)
    requires state.Qualified() && Reporting(state, key) && p in state.AgentsAt(key) && Sighted(state, current)
    ensures var snapshot := state.targets[key].snapshot.value;
      var o := ObservationOf(snapshot.agents[p], snapshot);
      o.pane == p && Sighted(state, current[p := o])
  {
  }

  lemma {:induction false} UnreadLength(events: seq<Event>)
    ensures |UnreadOnly(events)| <= |events|
    ensures |UnreadOnly(events)| == |events| ==> UnreadOnly(events) == events
  {
    if events != [] {
      UnreadLength(events[..|events| - 1]);
      assert events == events[..|events| - 1] + [events[|events| - 1]];
    }
  }

  lemma OneFewer(held: map<PaneId, Observation>, met: set<PaneId>, p: PaneId)
    ensures held - met - {p} == held - (met + {p})
    ensures p in held && p !in met ==> p in held - met && (held - met)[p] == held[p]
  {
  }

  class AttentionIndex {
    var next: nat
    var observations: map<PaneId, Observation>
    var events: seq<Event>

    ghost function Recorded(): History
      reads this
    {
      History(next, events)
    }

    ghost function View(): Log
      reads this
    {
      Log(observations, Recorded())
    }

    constructor ()
      ensures View() == Log(map[], History(0, []))
    {
      next, observations, events := 0, map[], [];
    }

    constructor Mirror(events: seq<Event>)
      ensures View() == Log(map[], MirrorOf(events))
    {
      this.next, this.observations, this.events := NextAfter(events, 0), map[], events;
    }

    method PushEvent(observation: Observation, kind: EventKind, clock: nat -> nat)
      modifies `next, `events
      ensures Recorded() == Pushed(old(Recorded()), [(observation, kind)], clock)
    {
      var id := next;
      next := next + 1;
      events := events + [Event(id, observation.pane, observation.agent, observation.workspace,
                                observation.status, kind, clock(id), true)];
      if |events| > MAX_ATTENTION_EVENTS {
        CapDrains(events);
        events := events[|events| - MAX_ATTENTION_EVENTS..];
      }
      assert [(observation, kind)][..0] == [];
    }

    /** Take in one event observed elsewhere, and say whether it is new here. */
    method Apply(event: Event) returns (arrived: bool)
      modifies `next, `events
      ensures Recorded() == Applied(old(Recorded()), event)
      ensures arrived <==> !Holds(old(events), event.id)
    {
      var i := 0;
      while i < |events| && events[i].id != event.id
        invariant i <= |events| && forall j | 0 <= j < i :: events[j].id != event.id
      {
        i := i + 1;
      }
      if i < |events| {
        assert IndexOf(events, event.id) == i;
        events := events[i := event];
        return false;
      }
      next := if next < event.id + 1 then event.id + 1 else next;
      events := SortById(events + [event]);
      if |events| > MAX_ATTENTION_EVENTS {
        CapDrains(events);
        events := events[|events| - MAX_ATTENTION_EVENTS..];
      }
      arrived := true;
    }

    /** Mark the events of one pane as seen, or of every pane, and say whether any was not. */
    method MarkSeen(pane: Option<PaneId>) returns (changed: bool)
      modifies `events
      ensures events == Seen(old(events), pane)
      ensures changed <==> events != old(events)
    {
      changed := false;
      for i := 0 to |events|
        invariant |events| == |old(events)|
        invariant forall j | 0 <= j < i :: events[j] == Seen(old(events), pane)[j]
        invariant forall j | i <= j < |events| :: events[j] == old(events)[j]
        invariant changed <==> exists j :: 0 <= j < i && events[j] != old(events)[j]
      {
        if events[i].unread && (pane.None? || events[i].pane == pane.value) {
          events := events[i := events[i].(unread := false)];
          changed := true;
        }
      }
      assert events == Seen(old(events), pane);
    }

    /** Drop every event that was seen, and say whether there was one. */
    method ClearSeen() returns (changed: bool)
      modifies `events
      ensures events == UnreadOnly(old(events))
      ensures changed <==> events != old(events)
    {
      var kept := [];
      for i := 0 to |events|
        invariant kept == UnreadOnly(events[..i])
      {
        assert events[..i + 1][..i] == events[..i];
        if events[i].unread {
          kept := kept + [events[i]];
        }
      }
      assert events[..|events|] == events;
      UnreadLength(events);
      changed := |kept| != |events|;
      events := kept;
    }

    /** What every reporting session lists, gathered target by target. */
    static method Gather(state: FederationState) returns (current: map<PaneId, Observation>)
      requires state.Qualified()
      ensures current == Current(state)
    {
      current := map[];
      var targets := SessionOrder(state.targets.Keys);
      for i := 0 to |targets|
        invariant forall p :: p in current <==> p in Listed(state) && p.Owner() in Taken(targets, i)
        invariant Sighted(state, current)
      {
        SessionStep(targets, i);
        var target := state.targets[targets[i]];
        if target.connection == Live && target.snapshot.Some? {
          current := GatherTarget(state, targets[i], current);
        }
      }
    }

    static method GatherTarget(state: FederationState, key: TargetSession, before: map<PaneId, Observation>)
      returns (current: map<PaneId, Observation>)
      requires state.Qualified() && Reporting(state, key) && Sighted(state, before)
      ensures forall p :: p in current <==> p in before || (p in Listed(state) && p.Owner() == key)
      ensures Sighted(state, current)
    {
      current := before;
      var snapshot := state.targets[key].snapshot.value;
      var panes := IdOrder(snapshot.agents.Keys);
      for j := 0 to |panes|
        invariant forall p :: p in current <==> p in before || p in Taken(panes, j)
        invariant Sighted(state, current)
      {
        IdStep(panes, j);
        var observation := ObservationOf(snapshot.agents[panes[j]], snapshot);
        OneMoreSighted(state, key, current, panes[j]);
        current := current[observation.pane := observation];
      }
    }

    /** Compare one sighting with what is held for its pane. */
    method ObserveOne(observation: Observation, clock: nat -> nat) returns (changed: bool)
      modifies this
      ensures Recorded() == Pushed(old(Recorded()), Change(old(observations), observation), clock)
      ensures observations == old(observations)[observation.pane := observation]
      ensures changed <==> NewTo(old(observations), observation)
    {
      changed := false;
      if observation.pane in observations {
        var previous := observations[observation.pane];
        var kind := TransitionKind(previous, observation);
        if kind.Some? {
          PushEvent(observation, kind.value, clock);
          changed := true;
        }
        if previous != observation {
          observations := observations[observation.pane := observation];
          changed := true;
        }
      } else {
        observations := observations[observation.pane := observation];
        changed := true;
      }
    }

    /** Compare what is current with what is held, pane by pane in the map's order. */
    method ObservePresent(current: map<PaneId, Observation>, order: seq<PaneId>, clock: nat -> nat)
      returns (changed: bool)
      requires Increasing(order, IdLess) && Taken(order, |order|) == current.Keys
      requires forall p | p in current :: current[p].pane == p
      modifies this
      ensures Recorded() == Pushed(old(Recorded()), Changes(order, |order|, old(observations), current), clock)
      ensures observations == old(observations) + current
      ensures changed <==> old(observations) + current != old(observations)
    {
      changed := false;
      ghost var held, recorded := observations, Recorded();
      ghost var pushed: seq<(Observation, EventKind)> := [];
      for i := 0 to |order|
        invariant Taken(order, i) <= current.Keys
        invariant observations == Overlaid(held, current, order, i)
        invariant pushed == Changes(order, i, held, current) && Recorded() == Pushed(recorded, pushed, clock)
        invariant changed <==> Differs(order, i, held, current)
      {
        IdStep(order, i);
        OverlaidAt(held, current, order, i, order[i]);
        var observation := current[order[i]];
        assert Change(observations, observation) == Change(held, observation);
        var moved := ObserveOne(observation, clock);
        PushedTwice(recorded, pushed, Change(held, observation), clock);
        pushed := pushed + Change(held, observation);
        changed := changed || moved;
      }
      DiffersMoves(order, held, current);
      OverlaidAll(held, current, order);
    }

    /** Let go of the panes a reporting session stopped listing, and record each one. */
    method RemoveVanished(gone: seq<PaneId>, clock: nat -> nat)
      requires Increasing(gone, IdLess) && Taken(gone, |gone|) <= observations.Keys
      modifies this
      ensures Recorded() == Pushed(old(Recorded()), Departures(gone, |gone|, old(observations)), clock)
      ensures observations == old(observations) - Taken(gone, |gone|)
    {
      ghost var held, recorded := observations, Recorded();
      ghost var pushed: seq<(Observation, EventKind)> := [];
      for i := 0 to |gone|
        invariant Taken(gone, i) <= held.Keys && observations == held - Taken(gone, i)
        invariant Recorded() == Pushed(recorded, pushed, clock) && pushed == Departures(gone, i, held)
      {
        IdStep(gone, i);
        OneFewer(held, Taken(gone, i), gone[i]);
        var observation := observations[gone[i]];
        observations := observations - {gone[i]};
        PushEvent(observation, Disappeared, clock);
        PushedTwice(recorded, pushed, [(observation, Disappeared)], clock);
        pushed := pushed + [(observation, Disappeared)];
      }
    }

    method Forget(removed: seq<PaneId>)
      modifies `observations
      ensures observations == old(observations) - Taken(removed, |removed|) && Recorded() == old(Recorded())
    {
      for i := 0 to |removed|
        invariant observations == old(observations) - Taken(removed, i)
      {
        observations := observations - {removed[i]};
      }
    }

    /** Derive what changed from one federation, and say whether anything did. */
    method Observe(state: FederationState, clock: nat -> nat) returns (changed: bool)
      requires state.Qualified()
      modifies this
      ensures View() == Observed(old(View()), state, clock)
      ensures changed <==> observations != old(observations)
    {
      ghost var log := View();
      var current := Gather(state);
      var order := IdOrder(current.Keys);
      changed := ObservePresent(current, order, clock);
      ghost var seen, afterChanges := observations, Recorded();
      var disappeared := IdOrder(Dropped(state, observations, current));
      RemoveVanished(disappeared, clock);
      ghost var kept, afterDepartures := observations, Recorded();
      var removed := IdOrder(Disowned(state, observations));
      Forget(removed);
      ObservedInSteps(log, state, clock, seen, afterChanges, kept, afterDepartures, observations);
      assert Recorded() == afterDepartures;
      changed := changed || |disappeared| > 0 || |removed| > 0;
    }
  }

  function Disowned(state: FederationState, held: map<PaneId, Observation>): set<PaneId> {
    set p | p in held && p.Owner() !in state.targets
  }

  /** Updating in three passes comes to what `Observed` says, and moves something exactly when it does. */
  lemma ObservedInSteps(
    log: Log, state: FederationState, clock: nat -> nat,
    seen: map<PaneId, Observation>, afterChanges: History,
    kept: map<PaneId, Observation>, afterDepartures: History, final: map<PaneId, Observation>)
    requires state.Qualified()
    requires seen == log.observations + Current(state)
    requires var order := IdOrder(Current(state).Keys);
             afterChanges == Pushed(log.history, Changes(order, |order|, log.observations, Current(state)), clock)
    requires var gone := IdOrder(Dropped(state, seen, Current(state)));
             && kept == seen - Taken(gone, |gone|)
             && afterDepartures == Pushed(afterChanges, Departures(gone, |gone|, seen), clock)
    requires var lost := IdOrder(Disowned(state, kept)); final == kept - Taken(lost, |lost|)
    ensures Observed(log, state, clock) == Log(final, afterDepartures)
    ensures final != log.observations <==>
      seen != log.observations || |IdOrder(Dropped(state, seen, Current(state)))| > 0
      || |IdOrder(Disowned(state, kept))| > 0
  {
    DroppedAgree(state, log.observations);
    RecordedInSteps(log, state, clock);
    RememberedInSteps(state, log.observations);
    RememberedMoves(state, log.observations);
  }

  lemma RecordedInSteps(log: Log, state: FederationState, clock: nat -> nat)
    requires state.Qualified()
    ensures var held, current := log.observations, Current(state);
      var order, gone := IdOrder(current.Keys), IdOrder(Dropped(state, held, current));
      Pushed(log.history, Emitted(held, state), clock)
      == Pushed(Pushed(log.history, Changes(order, |order|, held, current), clock),
                Departures(gone, |gone|, held + current), clock)
  {
    var held, current := log.observations, Current(state);
    var order, gone := IdOrder(current.Keys), VanishedPanes(state, held);
    var changes, departures := Changes(order, |order|, held, current), Departures(gone, |gone|, held);
    DeparturesAgree(gone, |gone|, held + current, held);
    PushedTwice(log.history, changes, departures, clock);
    assert Emitted(held, state) == changes + departures;
  }

  lemma DroppedAgree(state: FederationState, held: map<PaneId, Observation>)
    requires state.Qualified()
    ensures Dropped(state, held + Current(state), Current(state)) == Dropped(state, held, Current(state))
  {
  }

  lemma RememberedInSteps(state: FederationState, held: map<PaneId, Observation>)
    requires state.Qualified()
    ensures var seen := held + Current(state);
            var gone := Dropped(state, held, Current(state));
            var kept := seen - gone;
            kept - Disowned(state, kept) == Remembered(state, held)
  {
    var current := Current(state);
    var kept := held + current - Dropped(state, held, current);
    var final := kept - Disowned(state, kept);
    forall p
      ensures (p in final <==> p in Remembered(state, held)) && (p in final ==> final[p] == Remembered(state, held)[p])
    {
      RememberedAt(state, held, p);
      KeptAt(state, held, current, p);
    }
    MapsAgree(final, Remembered(state, held));
  }

  lemma KeptAt(
    state: FederationState, held: map<PaneId, Observation>, current: map<PaneId, Observation>, p: PaneId)
    ensures var kept := held + current - Dropped(state, held, current);
      var final := kept - Disowned(state, kept);
      && (p in final <==> p.Owner() in state.targets && (p in current || (p in held && !Reporting(state, p.Owner()))))
      && (p in final ==> final[p] == if p in current then current[p] else held[p])
  {
  }

  /** An observation moves what is remembered exactly when one of the three passes does. */
  lemma RememberedMoves(state: FederationState, held: map<PaneId, Observation>)
    requires state.Qualified()
    ensures var seen := held + Current(state);
            var gone := Dropped(state, seen, Current(state));
            Remembered(state, held) != held <==> seen != held || gone != {} || Disowned(state, seen - gone) != {}
  {
    var current := Current(state);
    var seen, final := held + current, Remembered(state, held);
    var gone := Dropped(state, seen, current);
    var lost := Disowned(state, seen - gone);
    forall p | p in current ensures p in final && final[p] == seen[p] {}
    forall p | p in gone + lost ensures p in held && p !in final {}
    if seen == held && gone == {} && lost == {} {
      forall p | p in held ensures p in final {
        assert p !in gone && p !in lost;
      }
    }
  }

  lemma {:induction false} DeparturesAgree(
    order: seq<PaneId>, n: nat, a: map<PaneId, Observation>, b: map<PaneId, Observation>)
    requires n <= |order| && Taken(order, n) <= a.Keys && Taken(order, n) <= b.Keys
    requires forall p | p in Taken(order, n) :: a[p] == b[p]
    ensures Departures(order, n, a) == Departures(order, n, b)
  {
    if n > 0 {
      DeparturesAgree(order, n - 1, a, b);
    }
  }
}
