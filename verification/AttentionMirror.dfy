/** A client's mirror: applying events in any order, with repeats, reaches one history. */
module AttentionMirror {
  import opened Attention
  import opened AttentionLaws

  ghost function Ids(events: seq<Event>): set<nat> {
    set i | 0 <= i < |events| :: events[i].id
  }

  /**
   * `events` is the newest part of `all`: in order, at most 256 long, each as `all` has it,
   * and anything left out is older than everything held, of which there are then 256.
   */
  ghost predicate Newest(events: seq<Event>, all: map<nat, Event>) {
    && Sorted(events)
    && |events| <= MAX_ATTENTION_EVENTS
    && (forall i | 0 <= i < |events| :: events[i].id in all && all[events[i].id] == events[i])
    && (forall id | id in all && !Holds(events, id) ::
          |events| == MAX_ATTENTION_EVENTS && forall i | 0 <= i < |events| :: id < events[i].id)
  }

  ghost predicate Agrees(event: Event, all: map<nat, Event>) {
    event.id in all ==> all[event.id] == event
  }

  // ----- inserting one event -----

  /** Where `event` lands: after everything with an id not greater. */
  ghost function Place(events: seq<Event>, event: Event): (k: nat)
    ensures k <= |events|
    ensures forall i | k <= i < |events| :: event.id < events[i].id
    ensures k > 0 ==> events[k - 1].id <= event.id
  {
    if events == [] || events[|events| - 1].id <= event.id then |events| else Place(events[..|events| - 1], event)
  }

  lemma PlaceSplits(events: seq<Event>, event: Event)
    requires Sorted(events)
    ensures forall i | 0 <= i < Place(events, event) :: events[i].id <= event.id
  {
    var k := Place(events, event);
    if k > 0 {
      assert forall i | 0 <= i < k - 1 :: events[i].id < events[k - 1].id;
    }
  }

  lemma {:induction false} InsertPlaces(events: seq<Event>, event: Event)
    ensures var k := Place(events, event); InsertById(events, event) == events[..k] + [event] + events[k..]
  {
    if events != [] && events[|events| - 1].id > event.id {
      var rest, last := events[..|events| - 1], events[|events| - 1];
      InsertPlaces(rest, event);
      var k := Place(rest, event);
      assert events[..k] == rest[..k] && events[k..] == rest[k..] + [last];
    }
  }

  lemma {:induction false} SortedStays(events: seq<Event>)
    requires Sorted(events)
    ensures SortById(events) == events
  {
    if events != [] {
      SortedStays(events[..|events| - 1]);
      assert events == events[..|events| - 1] + [events[|events| - 1]];
    }
  }

  lemma SortInserts(events: seq<Event>, event: Event)
    requires Sorted(events)
    ensures SortById(events + [event]) == InsertById(events, event)
  {
    SortedStays(events);
    assert (events + [event])[..|events|] == events;
  }

  /** Inserting puts the event at its place and moves nothing else out of order. */
  lemma InsertAt(events: seq<Event>, event: Event) returns (k: nat)
    requires Sorted(events) && !Holds(events, event.id)
    ensures var r := InsertById(events, event);
      && k <= |events| && |r| == |events| + 1 && r[k] == event
      && (forall i | 0 <= i < k :: r[i] == events[i] && events[i].id < event.id)
      && (forall i | k < i < |r| :: r[i] == events[i - 1] && event.id < events[i - 1].id)
  {
    InsertPlaces(events, event);
    PlaceSplits(events, event);
    k := Place(events, event);
    assert forall i | 0 <= i < |events| :: events[i].id != event.id;
  }

  lemma InsertKeepsOrder(events: seq<Event>, event: Event)
    requires Sorted(events) && !Holds(events, event.id)
    ensures Sorted(InsertById(events, event)) && |InsertById(events, event)| == |events| + 1
    ensures forall e | e in InsertById(events, event) :: e == event || e in events
  {
    var r := InsertById(events, event);
    var k := InsertAt(events, event);
    forall i, j | 0 <= i < j < |r|
      ensures r[i].id < r[j].id
    {
      var a, b := if i <= k then i else i - 1, if j <= k then j else j - 1;
      assert i != k && j != k ==> r[i] == events[a] && r[j] == events[b];
    }
  }

  lemma InsertHolds(events: seq<Event>, event: Event, id: nat)
    requires Sorted(events) && !Holds(events, event.id)
    ensures Holds(InsertById(events, event), id) <==> Holds(events, id) || id == event.id
  {
    var r := InsertById(events, event);
    var k := InsertAt(events, event);
    if Holds(events, id) {
      var i :| 0 <= i < |events| && events[i].id == id;
      assert r[if i < k then i else i + 1].id == id;
    }
  }

  lemma InsertSorted(events: seq<Event>, event: Event)
    requires Sorted(events) && !Holds(events, event.id)
    ensures var r := InsertById(events, event);
            && Sorted(r) && |r| == |events| + 1
            && (forall id :: Holds(r, id) <==> Holds(events, id) || id == event.id)
            && (forall i | 0 <= i < |r| :: r[i] == event || r[i] in events)
  {
    InsertKeepsOrder(events, event);
    forall id ensures Holds(InsertById(events, event), id) <==> Holds(events, id) || id == event.id {
      InsertHolds(events, event, id);
    }
  }

  lemma RepeatChangesNothing(mirror: History, all: map<nat, Event>, event: Event)
    requires Newest(mirror.events, all) && Agrees(event, all) && Holds(mirror.events, event.id)
    ensures Applied(mirror, event) == mirror && all[event.id := event] == all
  {
    var i := IndexOf(mirror.events, event.id);
    assert mirror.events[i] == event;
    assert mirror.events[i := event] == mirror.events;
  }

  /** A second copy of an event takes the place of the first, and nothing else moves. */
  lemma ReplacesExactly(mirror: History, event: Event)
    requires Holds(mirror.events, event.id) && Sorted(mirror.events)
    ensures var after := Applied(mirror, event);
      && after.next == mirror.next && |after.events| == |mirror.events|
      && forall i | 0 <= i < |after.events| ::
           after.events[i] == if mirror.events[i].id == event.id then event else mirror.events[i]
  {
  }

  lemma InsertedKnown(events: seq<Event>, all: map<nat, Event>, event: Event)
    requires Newest(events, all) && Agrees(event, all) && !Holds(events, event.id)
    ensures var r, all' := InsertById(events, event), all[event.id := event];
      forall i | 0 <= i < |r| :: r[i].id in all' && all'[r[i].id] == r[i]
  {
    InsertSorted(events, event);
    var r := InsertById(events, event);
    forall i | 0 <= i < |r| ensures r[i].id in all[event.id := event] && all[event.id := event][r[i].id] == r[i] {
      if r[i] != event {
        var j :| 0 <= j < |events| && events[j] == r[i];
        assert Holds(events, r[i].id);
      }
    }
  }

  lemma RoomForOne(events: seq<Event>, all: map<nat, Event>, event: Event)
    requires Newest(events, all) && Agrees(event, all)
    requires !Holds(events, event.id) && |events| < MAX_ATTENTION_EVENTS
    ensures Newest(InsertById(events, event), all[event.id := event])
  {
    InsertSorted(events, event);
    InsertedKnown(events, all, event);
  }

  /** One application keeps the mirror the newest part of everything it has been told. */
  lemma ApplyKeepsNewest(mirror: History, all: map<nat, Event>, event: Event)
    requires Newest(mirror.events, all) && Agrees(event, all)
    ensures Newest(Applied(mirror, event).events, all[event.id := event])
  {
    if Holds(mirror.events, event.id) {
      RepeatChangesNothing(mirror, all, event);
    } else {
      SortInserts(mirror.events, event);
      if |mirror.events| < MAX_ATTENTION_EVENTS {
        InsertPlaces(mirror.events, event);
        RoomForOne(mirror.events, all, event);
      } else {
        InsertPlaces(mirror.events, event);
        CapDrains(InsertById(mirror.events, event));
        OldestGoes(mirror.events, all, event);
      }
    }
  }

  /** Everything known but not kept is older than everything kept. */
  lemma LeftOutIsOlder(events: seq<Event>, all: map<nat, Event>, event: Event, id: nat)
    requires Newest(events, all) && Agrees(event, all)
    requires !Holds(events, event.id) && |events| == MAX_ATTENTION_EVENTS
    requires id in all[event.id := event] && !Holds(InsertById(events, event)[1..], id)
    ensures var t := InsertById(events, event)[1..]; forall i | 0 <= i < |t| :: id < t[i].id
  {
    var r := InsertById(events, event);
    InsertKeepsOrder(events, event);
    InsertHolds(events, event, id);
    var k := InsertAt(events, event);
    assert forall i | 0 <= i < |r| - 1 :: r[1..][i] == r[i + 1] && r[i + 1].id != id;
    if Holds(r, id) {
      assert r[0].id == id;
    } else {
      assert forall i | 0 <= i < |events| :: id < events[i].id;
      assert k > 0 ==> id < r[0].id;
    }
  }

  lemma TailSorted(events: seq<Event>)
    requires Sorted(events) && events != []
    ensures Sorted(events[1..]) && forall i | 0 <= i < |events| - 1 :: events[1..][i] == events[i + 1]
  {
  }

  lemma OldestGoes(events: seq<Event>, all: map<nat, Event>, event: Event)
    requires Newest(events, all) && Agrees(event, all)
    requires !Holds(events, event.id) && |events| == MAX_ATTENTION_EVENTS
    ensures Newest(InsertById(events, event)[1..], all[event.id := event])
  {
    InsertSorted(events, event);
    InsertedKnown(events, all, event);
    TailSorted(InsertById(events, event));
    forall id | id in all[event.id := event] && !Holds(InsertById(events, event)[1..], id)
      ensures forall i | 0 <= i < MAX_ATTENTION_EVENTS :: id < InsertById(events, event)[1..][i].id
    {
      LeftOutIsOlder(events, all, event, id);
    }
  }

  // ----- convergence -----

  /** Everything a mirror has been told: what it began with, and each event applied. */
  ghost function Told(all: map<nat, Event>, events: seq<Event>): map<nat, Event> {
    if events == [] then all
    else
      var last := events[|events| - 1];
      Told(all, events[..|events| - 1])[last.id := last]
  }

  /** One id always comes with one payload. */
  ghost predicate Consistent(all: map<nat, Event>, events: seq<Event>) {
    forall i | 0 <= i < |events| :: Agrees(events[i], all) && forall j | 0 <= j < |events| ::
      events[i].id == events[j].id ==> events[i] == events[j]
  }

  lemma {:induction false} ToldMeans(all: map<nat, Event>, events: seq<Event>)
    requires Consistent(all, events)
    ensures forall id :: id in Told(all, events) <==> id in all || Holds(events, id)
    ensures forall id | id in all :: Told(all, events)[id] == all[id]
    ensures forall e | e in events :: e.id in Told(all, events) && Told(all, events)[e.id] == e
  {
    if events != [] {
      var rest, last := events[..|events| - 1], events[|events| - 1];
      ToldMeans(all, rest);
      forall id ensures Holds(events, id) <==> Holds(rest, id) || id == last.id {
        if Holds(rest, id) {
          var i :| 0 <= i < |rest| && rest[i].id == id;
          assert events[i].id == id;
        }
        assert events[|events| - 1].id == last.id;
      }
    }
  }

  lemma {:induction false} AppliedAllNewest(mirror: History, all: map<nat, Event>, events: seq<Event>)
    requires Newest(mirror.events, all) && Consistent(all, events)
    ensures Newest(AppliedAll(mirror, events).events, Told(all, events))
  {
    if events != [] {
      var rest, last := events[..|events| - 1], events[|events| - 1];
      AppliedAllNewest(mirror, all, rest);
      ToldMeans(all, rest);
      assert Agrees(last, Told(all, rest)) by {
        if Holds(rest, last.id) {
          var i :| 0 <= i < |rest| && rest[i].id == last.id;
          assert events[i] == rest[i];
        }
      }
      ApplyKeepsNewest(AppliedAll(mirror, rest), Told(all, rest), last);
    }
  }

  lemma {:induction false} IdsCount(events: seq<Event>)
    requires Sorted(events)
    ensures |Ids(events)| == |events| && forall id :: id in Ids(events) <==> Holds(events, id)
  {
    if events != [] {
      var rest, last := events[..|events| - 1], events[|events| - 1];
      IdsCount(rest);
      assert Ids(events) == Ids(rest) + {last.id};
      assert last.id !in Ids(rest);
    }
  }

  lemma LastIsGreatest(a: seq<Event>, e: Event)
    requires Sorted(a) && e in a
    ensures e == a[|a| - 1] || e.id < a[|a| - 1].id
  {
  }

  lemma LastAgrees(a: seq<Event>, b: seq<Event>)
    requires Sorted(a) && Sorted(b) && a != [] && b != [] && forall e :: e in a <==> e in b
    ensures a[|a| - 1] == b[|b| - 1]
  {
    assert a[|a| - 1] in b && b[|b| - 1] in a;
    LastIsGreatest(a, b[|b| - 1]);
    LastIsGreatest(b, a[|a| - 1]);
  }

  lemma InFront(a: seq<Event>, e: Event)
    requires Sorted(a) && a != []
    ensures e in a[..|a| - 1] <==> e in a && e != a[|a| - 1]
  {
    assert a == a[..|a| - 1] + [a[|a| - 1]];
  }

  lemma {:induction false} SortedUnique(a: seq<Event>, b: seq<Event>)
    requires Sorted(a) && Sorted(b) && forall e :: e in a <==> e in b
    ensures a == b
  {
    assert a != [] ==> a[0] in b;
    assert b != [] ==> b[0] in a;
    if a != [] {
      var m, n := |a| - 1, |b| - 1;
      LastAgrees(a, b);
      forall e ensures e in a[..m] <==> e in b[..n] {
        InFront(a, e);
        InFront(b, e);
      }
      SortedUnique(a[..m], b[..n]);
      assert a == a[..m] + [a[m]] && b == b[..n] + [b[n]];
    }
  }

  lemma NoneMissing(a: seq<Event>, b: seq<Event>, all: map<nat, Event>)
    requires Newest(a, all) && Newest(b, all)
    ensures forall id | Holds(a, id) :: Holds(b, id)
  {
    IdsCount(a);
    IdsCount(b);
    if id :| Holds(a, id) && !Holds(b, id) {
      assert forall other | Holds(b, other) :: Holds(a, other);
      SubsetSize(Ids(b), Ids(a) - {id});
      assert false;
    }
  }

  lemma {:induction false} SubsetSize(a: set<nat>, b: set<nat>)
    requires a <= b
    ensures |a| <= |b|
  {
    if x :| x in a {
      SubsetSize(a - {x}, b - {x});
    }
  }

  /** The newest part of a body of events is one list. */
  lemma NewestUnique(a: seq<Event>, b: seq<Event>, all: map<nat, Event>)
    requires Newest(a, all) && Newest(b, all)
    ensures a == b
  {
    NoneMissing(a, b, all);
    NoneMissing(b, a, all);
    forall e ensures e in a <==> e in b {
      SameMember(a, b, all, e);
      SameMember(b, a, all, e);
    }
    SortedUnique(a, b);
  }

  lemma SameMember(a: seq<Event>, b: seq<Event>, all: map<nat, Event>, e: Event)
    requires Newest(a, all) && Newest(b, all) && forall id | Holds(a, id) :: Holds(b, id)
    ensures e in a ==> e in b
  {
    if e in a {
      assert Holds(a, e.id);
      var i :| 0 <= i < |b| && b[i].id == e.id;
      assert b[i] == e;
    }
  }

  /**
   * Convergence. From one sorted mirror, two deliveries of the same events -- in any order,
   * with any repeats -- reach the same history, which is the 256 newest of everything told.
   */
  lemma DeliveriesConverge(mirror: History, all: map<nat, Event>, first: seq<Event>, second: seq<Event>)
    requires Newest(mirror.events, all) && forall e | e in mirror.events :: e.id < mirror.next
    requires Consistent(all, first) && Consistent(all, second)
    requires forall e :: e in first <==> e in second
    ensures Newest(AppliedAll(mirror, first).events, Told(all, first))
    ensures AppliedAll(mirror, first) == AppliedAll(mirror, second)
  {
    AppliedAllNewest(mirror, all, first);
    AppliedAllNewest(mirror, all, second);
    ToldTwice(all, first, second);
    NewestUnique(AppliedAll(mirror, first).events, AppliedAll(mirror, second).events, Told(all, first));
    SameNext(mirror, first, second);
    SameNext(mirror, second, first);
  }

  lemma SameNext(mirror: History, first: seq<Event>, second: seq<Event>)
    requires forall e | e in mirror.events :: e.id < mirror.next
    requires forall e | e in first :: e in second
    ensures AppliedAll(mirror, first).next <= AppliedAll(mirror, second).next
  {
    NextSettles(mirror, first);
    NextSettles(mirror, second);
  }

  lemma NextAfterOne(mirror: History, event: Event)
    requires forall e | e in mirror.events :: e.id < mirror.next
    ensures var r := Applied(mirror, event);
            && mirror.next <= r.next && event.id < r.next
            && (forall e | e in r.events :: e.id < r.next)
            && (r.next == mirror.next || r.next == event.id + 1)
  {
    if Holds(mirror.events, event.id) {
      var i := IndexOf(mirror.events, event.id);
      assert mirror.events[i] in mirror.events;
      assert forall e | e in mirror.events[i := event] :: e in mirror.events || e == event;
    } else {
      SortKeeps(mirror.events + [event]);
      CapKeeps(SortById(mirror.events + [event]));
    }
  }

  /** The number a mirror would give next is one past everything it was ever told. */
  lemma {:induction false} NextSettles(mirror: History, events: seq<Event>)
    requires forall e | e in mirror.events :: e.id < mirror.next
    ensures var r := AppliedAll(mirror, events);
            && mirror.next <= r.next
            && (forall e | e in r.events || e in events :: e.id < r.next)
            && (r.next == mirror.next || exists e :: e in events && r.next == e.id + 1)
  {
    if events != [] {
      var rest, last := events[..|events| - 1], events[|events| - 1];
      NextSettles(mirror, rest);
      NextAfterOne(AppliedAll(mirror, rest), last);
      assert forall e | e in events :: e in rest || e == last;
      assert last in events && forall e | e in rest :: e in events;
    }
  }

  lemma InsertKeeps(events: seq<Event>, event: Event, e: Event)
    requires e in InsertById(events, event)
    ensures e == event || e in events
  {
    InsertPlaces(events, event);
  }

  lemma {:induction false} SortKeeps(events: seq<Event>)
    ensures forall e | e in SortById(events) :: e in events
  {
    if events != [] {
      var rest, last := events[..|events| - 1], events[|events| - 1];
      SortKeeps(rest);
      forall e | e in SortById(events) ensures e in events {
        InsertKeeps(SortById(rest), last, e);
      }
    }
  }

  lemma ToldTwice(all: map<nat, Event>, first: seq<Event>, second: seq<Event>)
    requires Consistent(all, first) && Consistent(all, second)
    requires forall e :: e in first <==> e in second
    ensures Told(all, first) == Told(all, second)
  {
    ToldMeans(all, first);
    ToldMeans(all, second);
    forall id ensures Holds(first, id) <==> Holds(second, id) {
      HoldsToo(first, second, id);
      HoldsToo(second, first, id);
    }
    forall id | Holds(first, id) ensures Told(all, first)[id] == Told(all, second)[id] {
      ToldSame(all, first, second, id);
    }
  }

  lemma ToldSame(all: map<nat, Event>, first: seq<Event>, second: seq<Event>, id: nat)
    requires Consistent(all, first) && Consistent(all, second) && Holds(first, id)
    requires forall e | e in first :: e in second
    ensures id in Told(all, first) && id in Told(all, second) && Told(all, first)[id] == Told(all, second)[id]
  {
    var i :| 0 <= i < |first| && first[i].id == id;
    assert first[i] in first && first[i] in second;
    ToldMeans(all, first);
    ToldMeans(all, second);
  }

  lemma HoldsToo(first: seq<Event>, second: seq<Event>, id: nat)
    requires forall e | e in first :: e in second
    ensures Holds(first, id) ==> Holds(second, id)
  {
    if Holds(first, id) {
      var i :| 0 <= i < |first| && first[i].id == id;
      assert first[i] in second;
    }
  }

  // ----- a mirror fed by the daemon -----

  /** A new highest event lands at the end, exactly as the daemon's own push puts it there. */
  lemma ApplyAppends(mirror: History, event: Event)
    requires mirror.Valid() && mirror.next <= event.id
    ensures Applied(mirror, event) == History(event.id + 1, Cap(mirror.events + [event]))
  {
    assert forall i | 0 <= i < |mirror.events| :: mirror.events[i] in mirror.events;
    assert !Holds(mirror.events, event.id) && Sorted(mirror.events + [event]);
    SortedStays(mirror.events + [event]);
  }

  lemma MintedStep(next: nat, changes: seq<(Observation, EventKind)>, clock: nat -> nat)
    requires changes != []
    ensures var last := |changes| - 1;
            && Minted(next, changes, clock)[..last] == Minted(next, changes[..last], clock)
            && Minted(next, changes, clock)[last] == Made(next + last, changes[last], clock)
  {
    var last := |changes| - 1;
    var rest := Minted(next, changes[..last], clock);
    assert Minted(next, changes, clock) == rest + [Made(next + last, changes[last], clock)];
    assert |rest| == last;
  }

  lemma PushedStep(history: History, changes: seq<(Observation, EventKind)>, clock: nat -> nat)
    requires changes != []
    ensures var last := |changes| - 1;
            var before, made := Pushed(history, changes[..last], clock), Minted(history.next, changes, clock)[last];
            && Pushed(history, changes, clock) == History(before.next + 1, Cap(before.events + [made]))
            && made.id == before.next
  {
    MintedStep(history.next, changes, clock);
  }

  /** A mirror that applies each event as it is pushed holds exactly the daemon's history. */
  lemma {:induction false} MirrorFollowsDaemon(
    mirror: History, history: History, changes: seq<(Observation, EventKind)>, clock: nat -> nat)
    requires history.Valid() && mirror.Valid()
    requires mirror.events == history.events && mirror.next <= history.next
    ensures var fed := AppliedAll(mirror, Minted(history.next, changes, clock));
            && fed.events == Pushed(history, changes, clock).events
            && fed.next == if changes == [] then mirror.next else Pushed(history, changes, clock).next
  {
    if changes != [] {
      var last := |changes| - 1;
      var minted := Minted(history.next, changes, clock);
      MintedStep(history.next, changes, clock);
      MirrorFollowsDaemon(mirror, history, changes[..last], clock);
      var fed := FedSoFar(mirror, history, changes[..last], clock, minted[..last]);
      ApplyAppends(fed, minted[last]);
      PushedStep(history, changes, clock);
    }
  }

  lemma FedSoFar(
    mirror: History, history: History, changes: seq<(Observation, EventKind)>, clock: nat -> nat, minted: seq<Event>)
    returns (fed: History)
    requires history.Valid() && mirror.Valid() && mirror.next <= history.next
    requires minted == Minted(history.next, changes, clock)
    requires AppliedAll(mirror, minted).events == Pushed(history, changes, clock).events
    ensures fed == AppliedAll(mirror, minted) && fed.Valid() && fed.next <= history.next + |changes|
  {
    fed := AppliedAll(mirror, minted);
    PushedValid(history, changes, clock);
    NextSettles(mirror, minted);
  }

  /** A client seeded from the daemon's events knows the number the daemon gives next, if any event is held. */
  lemma MirrorSeeds(history: History)
    requires history.Valid()
    ensures MirrorOf(history.events).Valid() && MirrorOf(history.events).next <= history.next
    ensures MirrorOf(history.events).next == history.next <==>
            if history.events == [] then history.next == 0
            else history.events[|history.events| - 1].id + 1 == history.next
  {
  }
}
