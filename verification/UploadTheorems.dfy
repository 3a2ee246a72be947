/** The promises of the upload window: bytes conserved, memory bounded, and no sender left asleep. */
module UploadTheorems {
  import opened UploadWindow
  import opened UploadLaws

  /** At every reachable state the writer's subtraction takes away no more than is there. */
  lemma SubtractionNeverUnderflows(states: seq<State>, actions: seq<Action>, n: nat)
    requires Run(states, actions) && n < |states| && states[n].writer.Subtracting?
    ensures states[n].writer.message.bytes <= states[n].queued
    ensures states[n].writer.message.Streamed() <= states[n].streamed
  {
    RunKeeps(states, actions, n);
  }

  /** What callers that do not wait for room have put in so far. */
  function PastedSoFar(actions: seq<Action>): nat {
    if actions == [] then 0
    else
      var last := actions[|actions| - 1];
      PastedSoFar(actions[..|actions| - 1]) + if last.CallerCount? then last.bytes else 0
  }

  /** How much of it the writer has taken off the counter. */
  ghost function PastedWritten(states: seq<State>, actions: seq<Action>, n: nat): nat
    requires Run(states, actions) && n < |states|
  {
    if n == 0 then 0
    else
      PastedWritten(states, actions, n - 1)
      + if actions[n - 1].Subtract? then Unstreamed(states[n - 1].writer.message) else 0
  }

  function Unstreamed(m: Message): nat { m.bytes - m.Streamed() }

  /** The pasted bytes still counted: in a caller's hand, in the channel, at the writer, or lost with the channel. */
  function PastedOutstanding(s: State): int {
    Pasted(s.callers) + Sum(s.channel, (m: Message) => Unstreamed(m))
    + (s.writer.Held() - s.writer.HeldStreamed()) + (s.lost - s.lostStreamed)
  }

  lemma {:induction false} ChannelParts(channel: seq<Message>)
    ensures InChannel(channel) == StreamedInChannel(channel) + Sum(channel, (m: Message) => Unstreamed(m))
  {
    if channel != [] {
      ChannelParts(channel[..|channel| - 1]);
    }
  }

  lemma StepUnstreamed(s: State, a: Action)
    requires Enabled(s, a)
    ensures Apply(s, a).queued - Apply(s, a).streamed
         == s.queued - s.streamed + (if a.CallerCount? then a.bytes else 0)
            - if a.Subtract? then Unstreamed(s.writer.message) else 0
  {
  }

  lemma {:induction false} UnstreamedIs(states: seq<State>, actions: seq<Action>, n: nat)
    requires Run(states, actions) && n < |states|
    ensures states[n].queued - states[n].streamed == PastedSoFar(actions[..n]) - PastedWritten(states, actions, n)
  {
    if n > 0 {
      UnstreamedIs(states, actions, n - 1);
      StepUnstreamed(states[n - 1], actions[n - 1]);
      assert actions[..n][..n - 1] == actions[..n - 1];
    }
  }

  /**
   * With `k` streaming senders, their share of what waits for the socket stays below the window
   * plus one chunk each; the rest is exactly what was pasted and has not been taken off again.
   */
  lemma MemoryBound(states: seq<State>, actions: seq<Action>, n: nat)
    requires Run(states, actions) && n < |states|
    ensures var k := |states[0].senders|;
            && 0 <= states[n].streamed < UPLOAD_WINDOW_BYTES + k * UPLOAD_CHUNK_BYTES
            && states[n].queued == states[n].streamed + PastedOutstanding(states[n])
            && PastedOutstanding(states[n]) == PastedSoFar(actions[..n]) - PastedWritten(states, actions, n)
            && PastedOutstanding(states[n]) >= 0
  {
    RunKeeps(states, actions, n);
    StreamedWithin(states[n]);
    ChannelParts(states[n].channel);
    UnstreamedIs(states, actions, n);
  }

  /**
   * No lost wakeup: a sender asleep with nothing to wake it faces a full window on an open
   * connection, or the writer stands between its store and its notification.
   */
  lemma NoLostWakeup(states: seq<State>, actions: seq<Action>, n: nat, i: nat)
    requires Run(states, actions) && n < |states| && i < |states[n].senders| && states[n].senders[i].Stuck()
    ensures (states[n].queued >= UPLOAD_WINDOW_BYTES && !states[n].closed)
            || states[n].writer.Notifying? || states[n].writer.CloseNotifying?
  {
    RunKeeps(states, actions, n);
    assert HeardBy(states[n], states[n].senders[i]);
  }

  // ----- progress -----

  /** The steps that drain: they need no new input, and only hand on or write out what is counted. */
  predicate Draining(a: Action) {
    a.Send? || a.CallerSend? || a.Receive? || a.Write? || a.Subtract? || a.Notify? || a.Close? || a.CloseNotify?
  }

  lemma {:induction false} SumPositive<T>(xs: seq<T>, f: T -> nat) returns (i: nat)
    requires Sum(xs, f) > 0
    ensures i < |xs| && f(xs[i]) > 0
  {
    i := |xs| - 1;
    if f(xs[i]) == 0 {
      i := SumPositive(xs[..i], f);
    }
  }

  /** The writer has ended, or waits for a message. */
  predicate Resting(s: State) { s.writer.Ended? || (s.writer.Receiving? && s.channel == []) }

  lemma WriterMoves(s: State) returns (a: Action)
    requires !Resting(s)
    ensures Enabled(s, a) && Draining(a)
  {
    match s.writer
    case Receiving => a := Receive;
    case Writing(_) => a := Write(true);
    case Subtracting(_, _) => a := Subtract;
    case Notifying(_) => a := Notify;
    case Closing => a := Close;
    case CloseNotifying => a := CloseNotify;
  }

  /** While a sender is stuck, something can drain. */
  lemma StuckCanDrain(s: State, i: nat) returns (a: Action)
    requires Inv(s) && i < |s.senders| && s.senders[i].Stuck()
    ensures Enabled(s, a) && Draining(a)
  {
    assert HeardBy(s, s.senders[i]);
    if !Resting(s) {
      a := WriterMoves(s);
    } else if Counted(s.senders) > 0 {
      var k := SumPositive(s.senders, (x: Sender) => x.Counted());
      a := Send(k);
    } else {
      var k := SumPositive(s.callers, (x: Caller) => x.Counted());
      a := CallerSend(k);
    }
  }

  function WriterEffort(pc: WriterPc): nat {
    match pc
    case Writing(_) => 5
    case Subtracting(_, _) => 4
    case Notifying(_) => 3
    case Closing => 2
    case CloseNotifying => 1
    case _ => 0
  }

  /** An upper bound on the draining steps left. */
  function Effort(s: State): nat {
    7 * Sends(s.senders) + 7 * Holds(s.callers) + 6 * |s.channel| + WriterEffort(s.writer)
  }

  function Sends(senders: seq<Sender>): nat { Sum(senders, (x: Sender) => if x.pc.Sending? then 1 else 0) }

  function Holds(callers: seq<Caller>): nat { Sum(callers, (x: Caller) => if x.Holding? then 1 else 0) }

  lemma SendsAt(senders: seq<Sender>, i: nat, sender: Sender)
    requires i < |senders| && senders[i].pc.Sending? && !sender.pc.Sending?
    ensures Sends(senders[i := sender]) == Sends(senders) - 1
  {
    SumUpdate(senders, i, sender, (x: Sender) => if x.pc.Sending? then 1 else 0);
  }

  lemma HoldsAt(callers: seq<Caller>, j: nat, caller: Caller)
    requires j < |callers| && callers[j].Holding? && !caller.Holding?
    ensures Holds(callers[j := caller]) == Holds(callers) - 1
  {
    SumUpdate(callers, j, caller, (x: Caller) => if x.Holding? then 1 else 0);
  }

  lemma {:induction false} WokenSending(senders: seq<Sender>)
    ensures Sends(Woken(senders)) == Sends(senders)
  {
    if senders != [] {
      var n := |senders| - 1;
      WokenSending(senders[..n]);
      assert Woken(senders)[..n] == Woken(senders[..n]);
    }
  }

  lemma HandingTires(s: State, a: Action)
    requires Enabled(s, a) && (a.Send? || a.CallerSend?)
    ensures Effort(Apply(s, a)) < Effort(s)
  {
    match a
    case Send(i) => SendsAt(s.senders, i, s.senders[i].(pc := if s.senders[i].pc.parcel.Chunk? then Reading else Done));
    case CallerSend(j) => HoldsAt(s.callers, j, Idle);
  }

  lemma Notified(s: State, a: Action, t: State)
    requires Enabled(s, a) && (a.Notify? || a.CloseNotify?) && t == Apply(s, a)
    ensures t.senders == Woken(s.senders) && t.callers == s.callers && |t.channel| <= |s.channel|
    ensures WriterEffort(t.writer) < WriterEffort(s.writer)
  {
  }

  lemma NotifyingTires(s: State, a: Action)
    requires Enabled(s, a) && (a.Notify? || a.CloseNotify?)
    ensures Effort(Apply(s, a)) < Effort(s)
  {
    Notified(s, a, Apply(s, a));
    WokenSending(s.senders);
  }

  lemma WritingTires(s: State, a: Action)
    requires Enabled(s, a) && (a.Receive? || a.Write? || a.Subtract? || a.Close?)
    ensures Effort(Apply(s, a)) < Effort(s)
  {
  }

  /** Every draining step leaves less to drain. */
  lemma DrainingTires(s: State, a: Action)
    requires Enabled(s, a) && Draining(a)
    ensures Effort(Apply(s, a)) < Effort(s)
  {
    if a.Send? || a.CallerSend? {
      HandingTires(s, a);
    } else if a.Notify? || a.CloseNotify? {
      NotifyingTires(s, a);
    } else {
      WritingTires(s, a);
    }
  }

  ghost predicate DrainStep(s: State, t: State) {
    exists a :: Enabled(s, a) && Draining(a) && t == Apply(s, a)
  }

  /** `states` is what draining does from its first state, one step after another. */
  ghost predicate Drain(states: seq<State>) {
    && states != []
    && forall n | 0 <= n < |states| - 1 :: DrainStep(states[n], states[n + 1])
  }

  lemma DrainStepKeeps(s: State, t: State)
    requires DrainStep(s, t) && Inv(s)
    ensures Inv(t) && Effort(t) < Effort(s)
  {
    var a :| Enabled(s, a) && Draining(a) && t == Apply(s, a);
    StepKeeps(s, a);
    DrainingTires(s, a);
  }

  lemma {:induction false} DrainKeeps(states: seq<State>, n: nat)
    requires Drain(states) && Inv(states[0]) && n < |states|
    ensures Inv(states[n]) && n + Effort(states[n]) <= Effort(states[0])
  {
    if n > 0 {
      DrainKeeps(states, n - 1);
      assert DrainStep(states[n - 1], states[n - 1 + 1]);
      DrainStepKeeps(states[n - 1], states[n]);
    }
  }

  ghost predicate Drained(s: State) {
    forall a | Draining(a) :: !Enabled(s, a)
  }

  lemma NothingHandedOver(s: State)
    requires Drained(s)
    ensures Counted(s.senders) == 0 && Pasted(s.callers) == 0
  {
    forall i | 0 <= i < |s.senders| ensures !s.senders[i].pc.Sending? {
      assert Draining(Send(i));
    }
    forall j | 0 <= j < |s.callers| ensures !s.callers[j].Holding? {
      assert Draining(CallerSend(j));
    }
    SumAtMost(s.senders, (x: Sender) => x.Counted(), 0);
    SumAtMost(s.callers, (x: Caller) => x.Counted(), 0);
  }

  lemma WriterIsIdle(s: State)
    requires Drained(s)
    ensures Resting(s)
  {
    if !Resting(s) {
      var a := WriterMoves(s);
    }
  }

  /** Where nothing can drain, either nothing is counted or the connection reads as closed. */
  lemma DrainedIsEmpty(s: State)
    requires Inv(s) && Drained(s)
    ensures s.queued == 0 || s.closed
  {
    WriterIsIdle(s);
    NothingHandedOver(s);
  }

  lemma DrainedIsAwake(s: State)
    requires Inv(s) && Drained(s)
    ensures forall i | 0 <= i < |s.senders| :: !s.senders[i].Stuck()
  {
    forall i | 0 <= i < |s.senders| ensures !s.senders[i].Stuck() {
      if s.senders[i].Stuck() {
        var a := StuckCanDrain(s, i);
      }
    }
  }

  /**
   * No reachable state is stuck. However the draining steps are ordered they come to an end,
   * within a bound read off the state; and where no more can be taken, no sender is asleep
   * without having been told to look again, and one that looks finds an empty queue or a closed
   * connection.
   */
  lemma DrainingWakesEveryone(states: seq<State>, actions: seq<Action>, n: nat, drained: seq<State>)
    requires Run(states, actions) && n < |states|
    requires Drain(drained) && drained[0] == states[n]
    ensures |drained| - 1 <= Effort(states[n])
    ensures var last := drained[|drained| - 1];
            Drained(last) ==>
              && (last.queued == 0 || last.closed)
              && forall i | 0 <= i < |last.senders| :: !last.senders[i].Stuck()
  {
    RunKeeps(states, actions, n);
    var m := |drained| - 1;
    DrainKeeps(drained, m);
    if Drained(drained[m]) {
      DrainedIsEmpty(drained[m]);
      DrainedIsAwake(drained[m]);
    }
  }
}
