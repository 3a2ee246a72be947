/** What the attention history keeps over every run, and why a mirror of it converges. */
module AttentionLaws {
  import opened Base
  import opened Ordering
  import opened Federation
  import opened Attention

  // ----- what one observation emits -----

  ghost predicate Keyed(held: map<PaneId, Observation>) {
    forall p | p in held :: held[p].pane == p
  }

  lemma CurrentKeyed(state: FederationState)
    requires state.Qualified()
    ensures Keyed(Current(state))
  {
  }

  /** A phase change, or readiness that was not there before. */
  ghost predicate Moved(before: Observation, after: Observation) {
    || AgentPhase(before.status, before.interactiveReady) != AgentPhase(after.status, after.interactiveReady)
    || (after.interactiveReady && !before.interactiveReady)
  }

  ghost predicate Mentions(changes: seq<(Observation, EventKind)>, p: PaneId) {
    exists i :: 0 <= i < |changes| && changes[i].0.pane == p
  }

  ghost predicate OnePerPane(changes: seq<(Observation, EventKind)>) {
    forall i, j | 0 <= i < j < |changes| :: changes[i].0.pane != changes[j].0.pane
  }

  lemma MentionsSplit(a: seq<(Observation, EventKind)>, b: seq<(Observation, EventKind)>, p: PaneId)
    ensures Mentions(a + b, p) <==> Mentions(a, p) || Mentions(b, p)
  {
    if Mentions(a, p) {
      var i :| 0 <= i < |a| && a[i].0.pane == p;
      assert (a + b)[i] == a[i];
    }
    if Mentions(b, p) {
      var i :| 0 <= i < |b| && b[i].0.pane == p;
      assert (a + b)[|a| + i] == b[i];
    }
  }

  lemma ChangeMentions(held: map<PaneId, Observation>, current: Observation, p: PaneId)
    ensures Mentions(Change(held, current), p) <==> current.pane == p && p in held && Moved(held[p], current)
  {
    var change := Change(held, current);
    assert change != [] ==> change[0].0.pane == current.pane;
  }

  lemma {:induction false} ChangesMention(
    order: seq<PaneId>, n: nat, held: map<PaneId, Observation>, current: map<PaneId, Observation>, p: PaneId)
    requires n <= |order| && Taken(order, n) <= current.Keys && Keyed(current)
    ensures Mentions(Changes(order, n, held, current), p) <==>
            p in Taken(order, n) && p in held && Moved(held[p], current[p])
  {
    if n > 0 {
      var o := current[order[n - 1]];
      ChangesMention(order, n - 1, held, current, p);
      ChangeMentions(held, o, p);
      MentionsSplit(Changes(order, n - 1, held, current), Change(held, o), p);
    }
  }

  lemma {:induction false} ChangesApart(
    order: seq<PaneId>, n: nat, held: map<PaneId, Observation>, current: map<PaneId, Observation>)
    requires n <= |order| && Taken(order, n) <= current.Keys && Increasing(order, IdLess) && Keyed(current)
    ensures OnePerPane(Changes(order, n, held, current))
  {
    if n > 0 {
      var before, change := Changes(order, n - 1, held, current), Change(held, current[order[n - 1]]);
      ChangesApart(order, n - 1, held, current);
      IdStep(order, n - 1);
      forall p ensures !(Mentions(before, p) && Mentions(change, p)) {
        ChangesMention(order, n - 1, held, current, p);
        ChangeMentions(held, current[order[n - 1]], p);
      }
      Joined(before, change);
    }
  }

  lemma {:induction false} DeparturesMention(order: seq<PaneId>, n: nat, held: map<PaneId, Observation>, p: PaneId)
    requires n <= |order| && Taken(order, n) <= held.Keys && Keyed(held)
    ensures Mentions(Departures(order, n, held), p) <==> p in Taken(order, n)
  {
    if n > 0 {
      var departure := (held[order[n - 1]], Disappeared);
      DeparturesMention(order, n - 1, held, p);
      assert [departure][0].0.pane == order[n - 1];
      MentionsSplit(Departures(order, n - 1, held), [departure], p);
    }
  }

  lemma {:induction false} DeparturesApart(order: seq<PaneId>, n: nat, held: map<PaneId, Observation>)
    requires n <= |order| && Taken(order, n) <= held.Keys && Increasing(order, IdLess) && Keyed(held)
    ensures OnePerPane(Departures(order, n, held))
  {
    if n > 0 {
      var before, departure := Departures(order, n - 1, held), (held[order[n - 1]], Disappeared);
      DeparturesApart(order, n - 1, held);
      IdStep(order, n - 1);
      forall p ensures !(Mentions(before, p) && Mentions([departure], p)) {
        DeparturesMention(order, n - 1, held, p);
      }
      Joined(before, [departure]);
    }
  }

  lemma EmittedMention(held: map<PaneId, Observation>, state: FederationState, p: PaneId)
    requires state.Qualified() && Keyed(held)
    ensures Mentions(Emitted(held, state), p) <==>
            p in held && if p in Current(state) then Moved(held[p], Current(state)[p]) else Reporting(state, p.Owner())
  {
    var order, gone := CurrentPanes(state), VanishedPanes(state, held);
    CurrentKeyed(state);
    ChangesMention(order, |order|, held, Current(state), p);
    DeparturesMention(gone, |gone|, held, p);
    MentionsSplit(Changes(order, |order|, held, Current(state)), Departures(gone, |gone|, held), p);
  }

  /**
   * One observation pushes at most one event for a pane, and does so exactly when the pane's
   * agent changed phase, became ready, or is absent from the snapshot of a reporting session.
   */
  lemma EmittedExactly(held: map<PaneId, Observation>, state: FederationState)
    requires state.Qualified() && Keyed(held)
    ensures OnePerPane(Emitted(held, state))
    ensures forall p :: Mentions(Emitted(held, state), p) <==>
              p in held && if p in Current(state) then Moved(held[p], Current(state)[p])
                           else Reporting(state, p.Owner())
  {
    var order, gone := CurrentPanes(state), VanishedPanes(state, held);
    var changes, departures := Changes(order, |order|, held, Current(state)), Departures(gone, |gone|, held);
    CurrentKeyed(state);
    ChangesApart(order, |order|, held, Current(state));
    DeparturesApart(gone, |gone|, held);
    forall p ensures !(Mentions(changes, p) && Mentions(departures, p)) {
      ChangesMention(order, |order|, held, Current(state), p);
      DeparturesMention(gone, |gone|, held, p);
    }
    Joined(changes, departures);
    forall p
      ensures Mentions(Emitted(held, state), p) <==>
              p in held && if p in Current(state) then Moved(held[p], Current(state)[p])
                           else Reporting(state, p.Owner())
    {
      EmittedMention(held, state, p);
    }
  }

  lemma Joined(a: seq<(Observation, EventKind)>, b: seq<(Observation, EventKind)>)
    requires OnePerPane(a) && OnePerPane(b) && forall p :: !(Mentions(a, p) && Mentions(b, p))
    ensures OnePerPane(a + b) && forall p :: Mentions(a + b, p) <==> Mentions(a, p) || Mentions(b, p)
  {
    forall p ensures Mentions(a + b, p) <==> Mentions(a, p) || Mentions(b, p) {
      MentionsSplit(a, b, p);
    }
    assert forall i | 0 <= i < |a| :: Mentions(a, a[i].0.pane);
    assert forall i | 0 <= i < |b| :: Mentions(b, b[i].0.pane);
  }

  /** A known session that cannot be asked emits nothing and keeps its baselines. */
  lemma SilentSessionsKept(held: map<PaneId, Observation>, state: FederationState, p: PaneId)
    requires state.Qualified() && Keyed(held)
    requires p.Owner() in state.targets && !Reporting(state, p.Owner())
    ensures !Mentions(Emitted(held, state), p)
    ensures p in Remembered(state, held) <==> p in held
    ensures p in held ==> Remembered(state, held)[p] == held[p]
  {
    EmittedExactly(held, state);
  }

  lemma NoMentionNoChange(changes: seq<(Observation, EventKind)>)
    requires forall p :: !Mentions(changes, p)
    ensures changes == []
  {
    assert changes == [] || Mentions(changes, changes[0].0.pane);
  }

  /** Observing the same federation again changes nothing and emits nothing. */
  lemma ObservedTwice(log: Log, state: FederationState, first: nat -> nat, second: nat -> nat)
    requires state.Qualified() && log.Valid()
    ensures Observed(Observed(log, state, first), state, second) == Observed(log, state, first)
    ensures Emitted(Observed(log, state, first).observations, state) == []
  {
    var held := Remembered(state, log.observations);
    RememberedShape(state, log.observations);
    RememberedTwice(state, log.observations);
    NothingToEmit(held, state);
  }

  lemma NotMentioned(held: map<PaneId, Observation>, state: FederationState, p: PaneId)
    requires state.Qualified() && Keyed(held)
    requires p in held ==>
      if p in Current(state) then held[p] == Current(state)[p] else !Reporting(state, p.Owner())
    ensures !Mentions(Emitted(held, state), p)
  {
    EmittedMention(held, state, p);
  }

  /** Whoever remembers what is current, and of reporting sessions nothing else, has nothing to emit. */
  lemma NothingToEmit(held: map<PaneId, Observation>, state: FederationState)
    requires state.Qualified() && Keyed(held)
    requires forall p | p in held ::
      if p in Current(state) then held[p] == Current(state)[p] else !Reporting(state, p.Owner())
    ensures Emitted(held, state) == []
  {
    forall p ensures !Mentions(Emitted(held, state), p) {
      NotMentioned(held, state, p);
    }
    NoMentionNoChange(Emitted(held, state));
  }

  lemma RememberedShape(state: FederationState, held: map<PaneId, Observation>)
    requires state.Qualified() && Keyed(held)
    ensures Keyed(Remembered(state, held))
    ensures forall p | p in Current(state) ::
      p in Remembered(state, held) && Remembered(state, held)[p] == Current(state)[p]
    ensures forall p | p in Remembered(state, held) ::
              p.Owner() in state.targets && (p in Current(state) || !Reporting(state, p.Owner()))
  {
    CurrentKeyed(state);
  }

  lemma RememberedTwice(state: FederationState, held: map<PaneId, Observation>)
    requires state.Qualified()
    ensures Remembered(state, Remembered(state, held)) == Remembered(state, held)
  {
    var once := Remembered(state, held);
    forall p
      ensures (p in Remembered(state, once) <==> p in once) && (p in once ==> Remembered(state, once)[p] == once[p])
    {
      RememberedAt(state, held, p);
      RememberedAt(state, once, p);
    }
    MapsAgree(Remembered(state, once), once);
  }

  // ----- numbering -----

  function Minted(next: nat, changes: seq<(Observation, EventKind)>, clock: nat -> nat): (r: seq<Event>)
    ensures |r| == |changes|
    ensures forall i | 0 <= i < |r| ::
      r[i].id == next + i && r[i].pane == changes[i].0.pane && r[i].kind == changes[i].1
  {
    if changes == [] then []
    else
      var last := |changes| - 1;
      Minted(next, changes[..last], clock) + [Made(next + last, changes[last], clock)]
  }

  /** Capping as it goes and capping at the end keep the same events. */
  lemma {:induction false} CapAbsorbs(a: seq<Event>, b: seq<Event>)
    ensures Cap(Cap(a) + b) == Cap(a + b)
  {
    if |a| > MAX_ATTENTION_EVENTS {
      CapAbsorbs(a[1..], b);
      assert (a + b)[1..] == a[1..] + b;
    }
  }

  lemma {:induction false} CapKeeps(events: seq<Event>)
    ensures forall e | e in Cap(events) :: e in events
    ensures Sorted(events) ==> Sorted(Cap(events))
  {
    if |events| > MAX_ATTENTION_EVENTS {
      CapKeeps(events[1..]);
    }
  }

  lemma CapStep(base: seq<Event>, before: seq<Event>, one: seq<Event>)
    ensures Cap(Cap(base + before) + one) == Cap(base + (before + one))
  {
    CapAbsorbs(base + before, one);
    assert base + before + one == base + (before + one);
  }

  lemma {:induction false} PushedKeepsNewest(
    history: History, changes: seq<(Observation, EventKind)>, clock: nat -> nat)
    requires Cap(history.events) == history.events
    ensures Pushed(history, changes, clock).events == Cap(history.events + Minted(history.next, changes, clock))
  {
    if changes == [] {
      assert history.events + [] == history.events;
    } else {
      var last := |changes| - 1;
      PushedKeepsNewest(history, changes[..last], clock);
      CapStep(history.events, Minted(history.next, changes[..last], clock),
              [Made(history.next + last, changes[last], clock)]);
    }
  }

  lemma PushedValid(history: History, changes: seq<(Observation, EventKind)>, clock: nat -> nat)
    requires history.Valid()
    ensures Pushed(history, changes, clock).Valid()
  {
    PushedKeepsNewest(history, changes, clock);
    CapKeeps(history.events + Minted(history.next, changes, clock));
    var all := history.events + Minted(history.next, changes, clock);
    assert forall i | 0 <= i < |history.events| :: all[i] in history.events;
    assert Sorted(all);
  }
}
