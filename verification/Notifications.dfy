/** Attention events gathered into notifications that come neither too soon nor too often. */
module Notifications {
  import opened Base
  import opened Attention

  const COALESCE_MS: nat := 500
  const MAX_PENDING_METADATA: nat := 16

  datatype Config = Config(
    enabled: bool, needsAttention: bool, working: bool, completed: bool, statusChanged: bool, disappeared: bool,
    devices: bool, minimumIntervalSeconds: nat, commandTimeoutSeconds: nat)
  {
    predicate Wants(kind: EventKind) {
      match kind
      case NeedsAttention => needsAttention
      case StartedWorking => working
      case Completed => completed
      case StatusChanged => statusChanged
      case Disappeared => disappeared
    }

    function IntervalMs(): nat { minimumIntervalSeconds * 1000 }
  }

  /** What one notification reports: how many updates, the latest of them, and how long to try. */
  datatype Delivery = Delivery(count: nat, latest: Event, timeoutSeconds: nat)

  datatype Queue = Queue(
    config: Config, lastSeen: Option<nat>, pending: seq<Event>, count: nat,
    queuedAt: Option<nat>, lastAttempt: Option<nat>)
  {
    function Cleared(): Queue { this.(pending := [], count := 0, queuedAt := None) }

    function Reconfigured(next: Config): (Queue, bool) {
      if config == next then (this, false) else (this.(config := next).Cleared(), true)
    }

    function Enqueued(event: Event, now: nat): (Queue, bool) {
      if lastSeen.Some? && event.id <= lastSeen.value then (this, false)
      else if !config.enabled || !config.Wants(event.kind) then (this.(lastSeen := Some(event.id)), false)
      else
        (this.(lastSeen := Some(event.id), count := count + 1, pending := Latest(pending + [event]),
               queuedAt := if queuedAt.Some? then queuedAt else Some(now)),
         true)
    }

    /** When a delivery may next be made, if anything waits for one. */
    function Ready(): Option<nat> {
      if !config.enabled || count == 0 || queuedAt.None? then None
      else
        var coalesced := queuedAt.value + COALESCE_MS;
        var limited := if lastAttempt.Some? then lastAttempt.value + config.IntervalMs() else queuedAt.value;
        Some(if coalesced < limited then limited else coalesced)
    }

    function Taken(now: nat): (Queue, Option<Delivery>) {
      if Ready().None? || now < Ready().value || pending == [] then (this, None)
      else
        (Cleared().(lastAttempt := Some(now)),
         Some(Delivery(count, pending[|pending| - 1], config.commandTimeoutSeconds)))
    }
  }

  /** How many of `n` are not among the last sixteen. */
  function Older(n: nat): (r: nat)
    ensures r <= n && n - r <= MAX_PENDING_METADATA
  {
    if n <= MAX_PENDING_METADATA then 0 else n - MAX_PENDING_METADATA
  }

  /** The last sixteen. */
  function Latest<T>(events: seq<T>): seq<T> { events[Older(|events|)..] }

  class NotificationQueue {
    var config: Config
    var lastSeen: Option<nat>
    var pending: seq<Event>
    var count: nat
    var queuedAt: Option<nat>
    var lastAttempt: Option<nat>

    function View(): Queue
      reads this
    {
      Queue(config, lastSeen, pending, count, queuedAt, lastAttempt)
    }

    constructor (config: Config, lastSeen: Option<nat>)
      ensures View() == Queue(config, lastSeen, [], 0, None, None)
    {
      this.config, this.lastSeen := config, lastSeen;
      pending, count, queuedAt, lastAttempt := [], 0, None, None;
    }

    method ClearPending()
      modifies this
      ensures View() == old(View()).Cleared()
    {
      pending, count, queuedAt := [], 0, None;
    }

    method Reconfigure(next: Config) returns (changed: bool)
      modifies this
      ensures (View(), changed) == old(View()).Reconfigured(next)
    {
      if config == next {
        return false;
      }
      config := next;
      ClearPending();
      changed := true;
    }

    method Enqueue(event: Event, now: nat) returns (accepted: bool)
      requires |pending| <= MAX_PENDING_METADATA
      modifies this
      ensures (View(), accepted) == old(View()).Enqueued(event, now) && |pending| <= MAX_PENDING_METADATA
    {
      if lastSeen.Some? && event.id <= lastSeen.value {
        return false;
      }
      lastSeen := Some(event.id);
      if !config.enabled || !config.Wants(event.kind) {
        return false;
      }
      count := count + 1;
      pending := pending + [event];
      while |pending| > MAX_PENDING_METADATA
        invariant Latest(pending) == Latest(old(pending) + [event])
        invariant View() == old(View()).(lastSeen := Some(event.id), count := old(count) + 1, pending := pending)
      {
        pending := pending[1..];
      }
      if queuedAt.None? {
        queuedAt := Some(now);
      }
      accepted := true;
    }

    method TakeReady(now: nat) returns (delivery: Option<Delivery>)
      modifies this
      ensures (View(), delivery) == old(View()).Taken(now)
    {
      if !config.enabled || count == 0 || queuedAt.None? {
        return None;
      }
      var coalesced := queuedAt.value + COALESCE_MS;
      var limited := if lastAttempt.Some? then lastAttempt.value + config.IntervalMs() else queuedAt.value;
      if now < coalesced || now < limited || pending == [] {
        return None;
      }
      delivery := Some(Delivery(count, pending[|pending| - 1], config.commandTimeoutSeconds));
      ClearPending();
      lastAttempt := Some(now);
    }
  }
}

/** Every run of the queue, judged by its calls and answers alone. */
module NotificationRuns {
  import opened Base
  import opened Attention
  import opened Notifications

  /** One call and what it answered. */
  datatype Happening =
    | Offered(event: Event, at: nat, accepted: bool)
    | Asked(at: nat, delivery: Option<Delivery>)
    | Configured(config: Config, changed: bool)

  /** How a queue starts out. */
  datatype Start = Start(config: Config, lastSeen: Option<nat>) {
    function Queue(): Notifications.Queue { Notifications.Queue(config, lastSeen, [], 0, None, None) }
  }

  /** The queue after one call. */
  function Stepped(q: Queue, h: Happening): Queue {
    match h
    case Offered(event, at, _) => q.Enqueued(event, at).0
    case Asked(at, _) => q.Taken(at).0
    case Configured(config, _) => q.Reconfigured(config).0
  }

  /** Whether the call, made on this queue, answers as the history says. */
  predicate Answers(q: Queue, h: Happening) {
    match h
    case Offered(event, at, accepted) => accepted == q.Enqueued(event, at).1
    case Asked(at, delivery) => delivery == q.Taken(at).1
    case Configured(config, changed) => changed == q.Reconfigured(config).1
  }

  /** The queue after every call of a history. */
  function After(start: Start, history: seq<Happening>): Queue {
    if history == [] then start.Queue()
    else Stepped(After(start, history[..|history| - 1]), history[|history| - 1])
  }

  /** A history whose answers are the queue's own. */
  predicate Real(start: Start, history: seq<Happening>) {
    history == []
    || (Real(start, history[..|history| - 1])
        && Answers(After(start, history[..|history| - 1]), history[|history| - 1]))
  }

  // ----- what a history says by itself -----

  predicate Clears(h: Happening) {
    || (h.Asked? && h.delivery.Some?)
    || (h.Configured? && h.changed)
  }

  /** Offers accepted and neither delivered nor thrown away since. */
  function Waiting(history: seq<Happening>): seq<Happening> {
    if history == [] then []
    else
      var front, last := history[..|history| - 1], history[|history| - 1];
      if Clears(last) then []
      else if last.Offered? && last.accepted then Waiting(front) + [last]
      else Waiting(front)
  }

  function Accepted(history: seq<Happening>): nat {
    if history == [] then 0
    else
      var last := history[|history| - 1];
      Accepted(history[..|history| - 1]) + if last.Offered? && last.accepted then 1 else 0
  }

  /** How many updates the deliveries so far have reported. */
  function Delivered(history: seq<Happening>): nat {
    if history == [] then 0
    else
      var last := history[|history| - 1];
      Delivered(history[..|history| - 1]) + if last.Asked? && last.delivery.Some? then last.delivery.value.count else 0
  }

  /** How many were waiting when a new configuration threw them away. */
  function Discarded(history: seq<Happening>): nat {
    if history == [] then 0
    else
      var front, last := history[..|history| - 1], history[|history| - 1];
      Discarded(front) + if last.Configured? && last.changed then |Waiting(front)| else 0
  }

  function LastDelivery(history: seq<Happening>): Option<nat> {
    if history == [] then None
    else
      var last := history[|history| - 1];
      if last.Asked? && last.delivery.Some? then Some(last.at) else LastDelivery(history[..|history| - 1])
  }

  function InForce(start: Start, history: seq<Happening>): Config {
    if history == [] then start.config
    else
      var last := history[|history| - 1];
      if last.Configured? then last.config else InForce(start, history[..|history| - 1])
  }

  /** Some offer so far, accepted or not, had this id or a later one; or the queue started past it. */
  ghost predicate Seen(start: Start, history: seq<Happening>, id: nat) {
    || (start.lastSeen.Some? && id <= start.lastSeen.value)
    || exists k :: 0 <= k < |history| && history[k].Offered? && id <= history[k].event.id
  }

  function Events(offers: seq<Happening>): seq<Event>
    requires forall h | h in offers :: h.Offered?
  {
    if offers == [] then [] else Events(offers[..|offers| - 1]) + [offers[|offers| - 1].event]
  }

  lemma {:induction false} WaitingAreOffers(history: seq<Happening>)
    ensures forall h | h in Waiting(history) :: h.Offered? && h.accepted && h in history
  {
    if history != [] {
      WaitingAreOffers(history[..|history| - 1]);
    }
  }

  lemma {:induction false} EventsLength(offers: seq<Happening>)
    requires forall h | h in offers :: h.Offered?
    ensures |Events(offers)| == |offers|
    ensures forall i | 0 <= i < |offers| :: Events(offers)[i] == offers[i].event
  {
    if offers != [] {
      EventsLength(offers[..|offers| - 1]);
    }
  }

  /** What the queue holds is exactly what its history leaves waiting, and its clocks are the history's. */
  ghost predicate Holds(start: Start, history: seq<Happening>, q: Queue) {
    var waiting := Waiting(history);
    && (forall h | h in waiting :: h.Offered?)
    && q.config == InForce(start, history)
    && q.count == |waiting| && q.pending == Latest(Events(waiting))
    && q.queuedAt == (if waiting == [] then None else Some(waiting[0].at))
    && q.lastAttempt == LastDelivery(history)
  }

  ghost predicate Faithful(start: Start, history: seq<Happening>, q: Queue) {
    && Holds(start, history, q)
    && forall id: nat :: Seen(start, history, id) <==> q.lastSeen.Some? && id <= q.lastSeen.value
  }

  lemma LatestAppends(events: seq<Event>, event: Event)
    ensures Latest(Latest(events) + [event]) == Latest(events + [event])
  {
  }

  lemma SeenGrows(start: Start, history: seq<Happening>, last: Happening, id: nat)
    ensures Seen(start, history + [last], id) <==> Seen(start, history, id) || (last.Offered? && id <= last.event.id)
  {
    var all := history + [last];
    assert all[|history|] == last && forall k | 0 <= k < |history| :: all[k] == history[k];
  }

  lemma AcceptedWaits(history: seq<Happening>, last: Happening)
    requires last.Offered? && last.accepted && forall h | h in Waiting(history) :: h.Offered?
    ensures var waiting := Waiting(history + [last]);
      && waiting == Waiting(history) + [last]
      && (forall h | h in waiting :: h.Offered?) && Events(waiting) == Events(Waiting(history)) + [last.event]
      && waiting[0] == if Waiting(history) == [] then last else Waiting(history)[0]
  {
    var waiting := Waiting(history);
    assert (history + [last])[..|history|] == history;
    assert (waiting + [last])[..|waiting|] == waiting;
  }

  lemma AcceptedIsHeld(start: Start, history: seq<Happening>, last: Happening, before: Queue)
    requires Holds(start, history, before) && Answers(before, last) && last.Offered? && last.accepted
    ensures Holds(start, history + [last], Stepped(before, last))
  {
    var all, after := history + [last], Stepped(before, last);
    assert all[..|history|] == history;
    AcceptedWaits(history, last);
    LatestAppends(Events(Waiting(history)), last.event);
    assert after.count == before.count + 1 && after.pending == Latest(before.pending + [last.event]);
    assert after.config == before.config && after.lastAttempt == before.lastAttempt;
    assert InForce(start, all) == InForce(start, history) && LastDelivery(all) == LastDelivery(history);
  }

  lemma RefusedIsHeld(start: Start, history: seq<Happening>, last: Happening, before: Queue)
    requires Holds(start, history, before) && Answers(before, last) && last.Offered? && !last.accepted
    ensures Holds(start, history + [last], Stepped(before, last))
  {
    assert (history + [last])[..|history|] == history;
    assert Waiting(history + [last]) == Waiting(history);
  }

  lemma OtherIsHeld(start: Start, history: seq<Happening>, last: Happening, before: Queue)
    requires Holds(start, history, before) && Answers(before, last) && !last.Offered?
    ensures Holds(start, history + [last], Stepped(before, last))
  {
    assert (history + [last])[..|history|] == history;
  }

  lemma StepIsFaithful(start: Start, history: seq<Happening>, last: Happening, before: Queue, all: seq<Happening>)
    requires Faithful(start, history, before) && Answers(before, last) && all == history + [last]
    ensures Faithful(start, all, Stepped(before, last))
  {
    var after := Stepped(before, last);
    forall id: nat
      ensures Seen(start, all, id) <==> after.lastSeen.Some? && id <= after.lastSeen.value
    {
      SeenGrows(start, history, last, id);
    }
    if last.Offered? && last.accepted {
      AcceptedIsHeld(start, history, last, before);
    } else if last.Offered? {
      RefusedIsHeld(start, history, last, before);
    } else {
      OtherIsHeld(start, history, last, before);
    }
  }

  lemma {:induction false} RealStep(start: Start, history: seq<Happening>)
    returns (front: seq<Happening>, last: Happening, before: Queue)
    requires Real(start, history) && history != []
    ensures history == front + [last] && |front| < |history| && Real(start, front)
    ensures before == After(start, front) && Answers(before, last) && After(start, history) == Stepped(before, last)
  {
    front, last := history[..|history| - 1], history[|history| - 1];
    before := After(start, front);
  }

  lemma NothingHeld(start: Start, history: seq<Happening>)
    requires history == []
    ensures Holds(start, history, start.Queue())
  {
  }

  lemma StartIsFaithful(start: Start, history: seq<Happening>)
    requires history == []
    ensures Faithful(start, history, start.Queue())
  {
    NothingHeld(start, history);
    forall id: nat
      ensures Seen(start, history, id) <==> start.Queue().lastSeen.Some? && id <= start.Queue().lastSeen.value
    {
    }
  }

  lemma {:induction false} QueueIsFaithful(start: Start, history: seq<Happening>)
    requires Real(start, history)
    ensures Faithful(start, history, After(start, history))
    decreases |history|
  {
    if history == [] {
      StartIsFaithful(start, history);
    } else {
      var front, last, before := RealStep(start, history);
      QueueIsFaithful(start, front);
      StepIsFaithful(start, front, last, before, history);
    }
  }

  // ----- what every run keeps -----

  lemma {:induction false} RealSoFar(start: Start, history: seq<Happening>, n: nat)
    requires Real(start, history) && n < |history|
    ensures Real(start, history[..n]) && Answers(After(start, history[..n]), history[n])
  {
    var front := history[..|history| - 1];
    if n < |front| {
      RealSoFar(start, front, n);
      assert front[..n] == history[..n];
    }
  }

  /** Every accepted update is reported in one delivery, still waiting, or thrown away by a new configuration. */
  lemma {:induction false} UpdatesConserved(start: Start, history: seq<Happening>)
    requires Real(start, history)
    ensures Accepted(history) == Delivered(history) + After(start, history).count + Discarded(history)
  {
    QueueIsFaithful(start, history);
    if history != [] {
      var front := history[..|history| - 1];
      QueueIsFaithful(start, front);
      UpdatesConserved(start, front);
    }
  }

  /** What waits are the last sixteen, in order, of the offers accepted since anything was cleared. */
  lemma PendingAreLatest(start: Start, history: seq<Happening>)
    requires Real(start, history)
    ensures var queue, waiting := After(start, history), Waiting(history);
      && (forall h | h in waiting :: h.Offered? && h.accepted) && queue.count == |waiting|
      && |queue.pending| == (if |waiting| <= MAX_PENDING_METADATA then |waiting| else MAX_PENDING_METADATA)
      && forall i | 0 <= i < |queue.pending| :: queue.pending[i] == waiting[Older(|waiting|) + i].event
  {
    QueueIsFaithful(start, history);
    WaitingAreOffers(history);
    LatestOffers(Waiting(history));
  }

  lemma LatestOffers(offers: seq<Happening>)
    requires forall h | h in offers :: h.Offered?
    ensures |Latest(Events(offers))| == |offers| - Older(|offers|)
    ensures forall i | 0 <= i < |Latest(Events(offers))| ::
      Latest(Events(offers))[i] == offers[Older(|offers|) + i].event
  {
    EventsLength(offers);
  }

  /** What each kind of event is switched by. */
  lemma WantsMeans(config: Config)
    ensures config.Wants(NeedsAttention) == config.needsAttention
    ensures config.Wants(StartedWorking) == config.working
    ensures config.Wants(Completed) == config.completed
    ensures config.Wants(StatusChanged) == config.statusChanged
    ensures config.Wants(Disappeared) == config.disappeared
  {
  }

  /** A new configuration is told from the one in force, and throws away what waits exactly when it differs. */
  lemma ReconfiguredExactly(start: Start, history: seq<Happening>, n: nat)
    requires Real(start, history) && n < |history| && history[n].Configured?
    ensures history[n].changed <==> history[n].config != InForce(start, history[..n])
  {
    RealSoFar(start, history, n);
    QueueIsFaithful(start, history[..n]);
  }

  /** An offer is accepted exactly when it is news, and of a kind the configuration in force asks for. */
  lemma AcceptedExactly(start: Start, history: seq<Happening>, n: nat)
    requires Real(start, history) && n < |history| && history[n].Offered?
    ensures var before, event := history[..n], history[n].event;
      history[n].accepted <==>
      !Seen(start, before, event.id) && InForce(start, before).enabled && InForce(start, before).Wants(event.kind)
  {
    RealSoFar(start, history, n);
    QueueIsFaithful(start, history[..n]);
  }

  /** An accepted offer has a later id than every offer before it, so no id is accepted twice. */
  lemma NoIdAcceptedTwice(start: Start, history: seq<Happening>, i: nat, j: nat)
    requires Real(start, history) && i < j < |history|
    requires history[i].Offered? && history[j].Offered? && history[j].accepted
    ensures history[i].event.id < history[j].event.id
  {
    AcceptedExactly(start, history, j);
    assert history[..j][i] == history[i];
  }

  /**
   * At every point of a run, a delivery is made exactly when notifications are on, something waits,
   * half a second has passed since the first of what waits, and the interval in force since the
   * delivery before. It reports everything that waits, and the latest of it.
   */
  lemma DeliveredExactlyWhenDue(start: Start, history: seq<Happening>, n: nat)
    requires Real(start, history) && n < |history| && history[n].Asked?
    ensures var before, at, delivery := history[..n], history[n].at, history[n].delivery;
      var waiting, config, previous := Waiting(before), InForce(start, before), LastDelivery(before);
      && (forall h | h in waiting :: h.Offered?)
      && (delivery.Some? <==>
           && config.enabled && waiting != []
           && at >= waiting[0].at + 500
           && (previous.Some? ==> at >= previous.value + 1000 * config.minimumIntervalSeconds))
      && (delivery.Some? ==>
           delivery.value == Delivery(|waiting|, waiting[|waiting| - 1].event, config.commandTimeoutSeconds))
  {
    RealSoFar(start, history, n);
    QueueIsFaithful(start, history[..n]);
    EventsLength(Waiting(history[..n]));
  }
}
