/** What every interleaving of senders, callers and the writer keeps. */
module UploadLaws {
  import opened UploadWindow

  /** `queued` is exactly what was counted and has not been written, wherever it is now. */
  ghost predicate Conserved(s: State) {
    && s.queued == Counted(s.senders) + Pasted(s.callers) + InChannel(s.channel) + s.writer.Held() + s.lost
    && s.streamed == Counted(s.senders) + StreamedInChannel(s.channel) + s.writer.HeldStreamed() + s.lostStreamed
    && s.lostStreamed <= s.lost
  }

  /** The connection reads as closed exactly once the writer is past its loop, and only then is anything lost. */
  ghost predicate Lifecycle(s: State) {
    && (s.closed <==> s.writer.CloseNotifying? || s.writer.Ended?)
    && (s.lost > 0 ==> s.writer.Ended?)
  }

  ghost predicate Bounded(s: State) {
    && (forall i | 0 <= i < |s.senders| :: s.senders[i].Sized())
    && s.streamed + Rooms(s.senders) < UPLOAD_WINDOW_BYTES + |s.senders| * UPLOAD_CHUNK_BYTES
  }

  /** A sender that was not told to look again has nothing to see, or is about to be told. */
  ghost predicate HeardBy(s: State, sender: Sender) {
    && (sender.Stuck() ==> s.queued >= UPLOAD_WINDOW_BYTES || s.writer.Notifying?)
    && (!sender.woken && (sender.pc.Open? || sender.pc.Asleep?) ==> !s.closed || s.writer.CloseNotifying?)
  }

  ghost predicate Heard(s: State) {
    forall i | 0 <= i < |s.senders| :: HeardBy(s, s.senders[i])
  }

  ghost predicate Inv(s: State) { Conserved(s) && Lifecycle(s) && Bounded(s) && Heard(s) }

  // ----- how the sums move -----

  lemma CountedAt(s: State, i: nat, sender: Sender)
    requires i < |s.senders|
    ensures Counted(s.senders[i := sender]) == Counted(s.senders) - s.senders[i].Counted() + sender.Counted()
    ensures Rooms(s.senders[i := sender]) == Rooms(s.senders) - s.senders[i].Room() + sender.Room()
  {
    SumUpdate(s.senders, i, sender, (x: Sender) => x.Counted());
    SumUpdate(s.senders, i, sender, (x: Sender) => x.Room());
  }

  lemma PastedAt(s: State, j: nat, caller: Caller)
    requires j < |s.callers|
    ensures Pasted(s.callers[j := caller]) == Pasted(s.callers) - s.callers[j].Counted() + caller.Counted()
  {
    SumUpdate(s.callers, j, caller, (x: Caller) => x.Counted());
  }

  lemma ChannelGrows(channel: seq<Message>, m: Message)
    ensures InChannel(channel + [m]) == InChannel(channel) + m.bytes
    ensures StreamedInChannel(channel + [m]) == StreamedInChannel(channel) + m.Streamed()
  {
    SumAppend(channel, m, (x: Message) => x.bytes);
    SumAppend(channel, m, (x: Message) => x.Streamed());
  }

  lemma ChannelShrinks(channel: seq<Message>)
    requires channel != []
    ensures InChannel(channel) == channel[0].bytes + InChannel(channel[1..])
    ensures StreamedInChannel(channel) == channel[0].Streamed() + StreamedInChannel(channel[1..])
  {
    SumFront(channel, (x: Message) => x.bytes);
    SumFront(channel, (x: Message) => x.Streamed());
  }

  lemma {:induction false} StreamedShare(channel: seq<Message>)
    ensures StreamedInChannel(channel) <= InChannel(channel)
  {
    if channel != [] {
      StreamedShare(channel[..|channel| - 1]);
    }
  }

  lemma {:induction false} WokenSums(senders: seq<Sender>)
    ensures Counted(Woken(senders)) == Counted(senders) && Rooms(Woken(senders)) == Rooms(senders)
  {
    if senders != [] {
      var n := |senders| - 1;
      WokenSums(senders[..n]);
      assert Woken(senders)[..n] == Woken(senders[..n]);
    }
  }

  // ----- each invariant, step by step -----

  lemma DeliveredConserves(s: State, m: Message)
    requires s.queued
      == Counted(s.senders) + Pasted(s.callers) + InChannel(s.channel) + s.writer.Held() + s.lost + m.bytes
    requires s.streamed
      == Counted(s.senders) + StreamedInChannel(s.channel) + s.writer.HeldStreamed() + s.lostStreamed + m.Streamed()
    requires s.lostStreamed <= s.lost
    ensures Conserved(Delivered(s, m))
  {
    ChannelGrows(s.channel, m);
  }

  lemma CountConserves(s: State, a: Action)
    requires Conserved(s) && Enabled(s, a) && a.Count?
    ensures Conserved(Apply(s, a))
  {
    CountedAt(s, a.i, Apply(s, a).senders[a.i]);
  }

  lemma SenderStepConserves(s: State, a: Action)
    requires Conserved(s) && Enabled(s, a)
    requires a.Read? || a.ReadEnd? || a.ReadFailed? || a.Register? || a.CheckClosed? || a.CheckQueued? || a.Wake?
    ensures Conserved(Apply(s, a))
  {
    CountedAt(s, a.i, Apply(s, a).senders[a.i]);
  }

  lemma SendConserves(s: State, i: nat)
    requires Conserved(s) && Enabled(s, Send(i))
    ensures Conserved(Apply(s, Send(i)))
  {
    var parcel := s.senders[i].pc.parcel;
    var handed := At(s, i, if parcel.Chunk? then Reading else Done);
    CountedAt(s, i, handed.senders[i]);
    DeliveredConserves(handed, Message(parcel.Bytes(), true));
  }

  lemma CallerStepConserves(s: State, a: Action)
    requires Conserved(s) && Enabled(s, a) && (a.CallerCount? || a.CallerSend? || a.CallerDrop?)
    ensures Conserved(Apply(s, a))
  {
    match a
    case CallerSend(j) =>
      PastedAt(s, j, Idle);
      DeliveredConserves(s.(callers := s.callers[j := Idle]), Message(s.callers[j].bytes, false));
    case CallerCount(j, bytes) => PastedAt(s, j, Holding(bytes));
    case CallerDrop(j) => PastedAt(s, j, Dropped);
  }

  lemma WriterStepConserves(s: State, a: Action)
    requires Conserved(s) && Enabled(s, a) && (a.Receive? || a.Write? || a.Subtract? || a.HangUp? || a.Close?)
    ensures Conserved(Apply(s, a))
  {
    if a.Receive? {
      ChannelShrinks(s.channel);
    }
  }

  lemma NotifyConserves(s: State, a: Action)
    requires Conserved(s) && Enabled(s, a) && a.Notify?
    ensures Conserved(Apply(s, a))
  {
    WokenSums(s.senders);
  }

  lemma CloseNotifyConserves(s: State, a: Action)
    requires Conserved(s) && Enabled(s, a) && a.CloseNotify?
    ensures Conserved(Apply(s, a))
  {
    WokenSums(s.senders);
    StreamedShare(s.channel);
  }

  lemma StepConserves(s: State, a: Action)
    requires Conserved(s) && Enabled(s, a)
    ensures Conserved(Apply(s, a))
  {
    if a.Read? || a.ReadEnd? || a.ReadFailed? || a.Register? || a.CheckClosed? || a.CheckQueued? || a.Wake? {
      SenderStepConserves(s, a);
    } else if a.Count? {
      CountConserves(s, a);
    } else if a.Send? {
      SendConserves(s, a.i);
    } else if a.CallerCount? || a.CallerSend? || a.CallerDrop? {
      CallerStepConserves(s, a);
    } else if a.Notify? {
      NotifyConserves(s, a);
    } else if a.CloseNotify? {
      CloseNotifyConserves(s, a);
    } else {
      WriterStepConserves(s, a);
    }
  }

  lemma StepLifecycle(s: State, a: Action)
    requires Lifecycle(s) && Enabled(s, a)
    ensures Lifecycle(Apply(s, a))
  {
  }

  /** What streaming senders put in never exceeds the whole. */
  lemma StreamedWithin(s: State)
    requires Conserved(s)
    ensures 0 <= s.streamed <= s.queued
  {
    StreamedShare(s.channel);
  }

  lemma RoomsBelow(senders: seq<Sender>)
    requires forall i | 0 <= i < |senders| :: senders[i].Sized()
    ensures Rooms(senders) <= |senders| * UPLOAD_CHUNK_BYTES
  {
    SumAtMost(senders, (x: Sender) => x.Room(), UPLOAD_CHUNK_BYTES);
  }

  lemma StepSized(s: State, a: Action)
    requires (forall i | 0 <= i < |s.senders| :: s.senders[i].Sized()) && Enabled(s, a)
    ensures forall i | 0 <= i < |Apply(s, a).senders| :: Apply(s, a).senders[i].Sized()
    ensures |Apply(s, a).senders| == |s.senders|
  {
  }

  /** The one step that makes room for a chunk finds the window open. */
  lemma GrantBounds(s: State, a: Action)
    requires Conserved(s) && Enabled(s, a) && a.CheckQueued? && s.queued < UPLOAD_WINDOW_BYTES
    requires forall i | 0 <= i < |Apply(s, a).senders| :: Apply(s, a).senders[i].Sized()
    ensures Bounded(Apply(s, a))
  {
    StreamedWithin(s);
    RoomsBelow(Apply(s, a).senders);
  }

  lemma StepBounds(s: State, a: Action)
    requires Conserved(s) && Bounded(s) && Enabled(s, a)
    ensures Bounded(Apply(s, a))
  {
    StepSized(s, a);
    if a.CheckQueued? && s.queued < UPLOAD_WINDOW_BYTES {
      GrantBounds(s, a);
    } else if a.Notify? || a.CloseNotify? {
      WokenSums(s.senders);
    } else if a.Read? || a.ReadEnd? || a.ReadFailed? || a.Register? || a.CheckClosed? || a.CheckQueued?
           || a.Wake? || a.Count? || a.Send? {
      CountedAt(s, a.i, Apply(s, a).senders[a.i]);
    }
  }

  lemma StepHears(s: State, a: Action, i: nat)
    requires Heard(s) && Lifecycle(s) && Enabled(s, a) && i < |s.senders| == |Apply(s, a).senders|
    ensures HeardBy(Apply(s, a), Apply(s, a).senders[i])
  {
    assert HeardBy(s, s.senders[i]);
  }

  lemma StepKeeps(s: State, a: Action)
    requires Inv(s) && Enabled(s, a)
    ensures Inv(Apply(s, a))
  {
    StepConserves(s, a);
    StepLifecycle(s, a);
    StepBounds(s, a);
    StepSized(s, a);
    forall i | 0 <= i < |s.senders| ensures HeardBy(Apply(s, a), Apply(s, a).senders[i]) {
      StepHears(s, a, i);
    }
  }

  lemma {:induction false} InitialSums(senders: seq<Sender>, callers: seq<Caller>)
    requires forall i | 0 <= i < |senders| :: senders[i].pc.Reading?
    requires forall j | 0 <= j < |callers| :: callers[j].Idle?
    ensures Counted(senders) == 0 && Rooms(senders) == 0 && Pasted(callers) == 0
  {
    SumAtMost(senders, (x: Sender) => x.Counted(), 0);
    SumAtMost(senders, (x: Sender) => x.Room(), 0);
    SumAtMost(callers, (x: Caller) => x.Counted(), 0);
  }

  lemma {:induction false} RunKeeps(states: seq<State>, actions: seq<Action>, n: nat)
    requires Run(states, actions) && n < |states|
    ensures Inv(states[n]) && |states[n].senders| == |states[0].senders|
  {
    if n == 0 {
      InitialSums(states[0].senders, states[0].callers);
    } else {
      RunKeeps(states, actions, n - 1);
      StepKeeps(states[n - 1], actions[n - 1]);
      StepSized(states[n - 1], actions[n - 1]);
    }
  }
}
