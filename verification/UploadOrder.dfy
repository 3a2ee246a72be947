/** Runs of the upload window: why the writer ends, what order messages leave in, and how each stream ends. */
module UploadOrder {
  import opened UploadWindow
  import opened UploadLaws

  // ----- why the writer ends -----

  /** Past its loop, or about to leave it. */
  predicate Ending(w: WriterPc) {
    || w.Closing? || w.CloseNotifying? || w.Ended?
    || (w.Subtracting? && !w.wrote) || (w.Notifying? && !w.wrote)
  }

  /** A write that fails, or the channel found closed with nothing left in it. */
  predicate EndsWriter(a: Action) { a == Write(false) || a == HangUp }

  lemma StepEnds(s: State, a: Action)
    requires Enabled(s, a)
    ensures Ending(Apply(s, a).writer) <==> Ending(s.writer) || EndsWriter(a)
    ensures Apply(s, a).closed ==> s.closed || s.writer.Closing?
  {
  }

  /** One of the first `n` steps ended the writer. */
  ghost predicate Ended(actions: seq<Action>, n: nat)
    requires n <= |actions|
  {
    exists k :: 0 <= k < n && EndsWriter(actions[k])
  }

  lemma EndedStep(actions: seq<Action>, n: nat)
    requires 0 < n <= |actions|
    ensures Ended(actions, n) <==> Ended(actions, n - 1) || EndsWriter(actions[n - 1])
  {
  }

  /** The writer is past its loop, or about to leave it, exactly when a write failed or every sender was gone. */
  lemma {:induction false} WriterEndsExactly(states: seq<State>, actions: seq<Action>, n: nat)
    requires Run(states, actions) && n < |states|
    ensures Ending(states[n].writer) <==> Ended(actions, n)
  {
    if n > 0 {
      WriterEndsExactly(states, actions, n - 1);
      EndedStep(actions, n);
      StepEnds(states[n - 1], actions[n - 1]);
    }
  }

  /** Nothing is taken from the channel or written after a write that failed, and the connection never reopens. */
  lemma NothingWrittenAfterFailure(states: seq<State>, actions: seq<Action>, k: nat, n: nat)
    requires Run(states, actions) && k < n < |actions| && actions[k] == Write(false)
    ensures !actions[n].Receive? && !actions[n].Write?
  {
    assert EndsWriter(actions[k]);
    WriterEndsExactly(states, actions, n);
  }

  /** No sender finds the connection closed unless a write failed or every sender was gone. */
  lemma ClosedOnlyAtItsEnd(states: seq<State>, actions: seq<Action>, n: nat)
    requires Run(states, actions) && n < |states| && states[n].closed
    ensures Ended(actions, n)
  {
    RunKeeps(states, actions, n);
    WriterEndsExactly(states, actions, n);
  }

  // ----- what order messages leave in -----

  /** Everything handed to the channel, in the order it was. */
  ghost function HandedOver(states: seq<State>, actions: seq<Action>, n: nat): seq<Message>
    requires Run(states, actions) && n < |states|
  {
    if n == 0 then []
    else HandedOver(states, actions, n - 1) + Handing(states[n - 1], actions[n - 1])
  }

  ghost function Handing(s: State, a: Action): seq<Message>
    requires Enabled(s, a)
  {
    match a
    case Send(i) => [Message(s.senders[i].pc.parcel.Bytes(), true)]
    case CallerSend(j) => [Message(s.callers[j].bytes, false)]
    case _ => []
  }

  /** Everything the writer was given, in the order it was: what it held when it wrote. */
  ghost function Written(states: seq<State>, actions: seq<Action>, n: nat): seq<Message>
    requires Run(states, actions) && n < |states|
  {
    if n == 0 then []
    else
      Written(states, actions, n - 1)
      + if actions[n - 1].Write? then [states[n - 1].writer.message] else []
  }

  /** The message the writer has taken and not yet written. */
  function InHand(w: WriterPc): seq<Message> {
    if w.Writing? then [w.message] else []
  }

  ghost predicate InOrder(written: seq<Message>, s: State, handed: seq<Message>) {
    if s.writer.Ended? then written <= handed else written + InHand(s.writer) + s.channel == handed
  }

  lemma HandingKeepsOrder(written: seq<Message>, s: State, handed: seq<Message>, a: Action)
    requires Enabled(s, a) && InOrder(written, s, handed) && (a.Send? || a.CallerSend?)
    ensures InOrder(written, Apply(s, a), handed + Handing(s, a))
  {
    if !s.writer.Ended? {
      assert written + InHand(s.writer) + (s.channel + Handing(s, a)) == handed + Handing(s, a);
    }
  }

  lemma ReceivingKeepsOrder(written: seq<Message>, s: State, handed: seq<Message>, a: Action)
    requires Enabled(s, a) && InOrder(written, s, handed) && a.Receive?
    ensures InOrder(written, Apply(s, a), handed)
  {
    assert s.channel == [s.channel[0]] + s.channel[1..];
    assert written + [] + s.channel == written + [s.channel[0]] + s.channel[1..];
  }

  lemma WritingKeepsOrder(written: seq<Message>, s: State, handed: seq<Message>, a: Action)
    requires Enabled(s, a) && InOrder(written, s, handed) && a.Write?
    ensures InOrder(written + [s.writer.message], Apply(s, a), handed)
  {
    assert written + [s.writer.message] + [] + s.channel == written + [s.writer.message] + s.channel;
  }

  lemma OtherKeepsOrder(written: seq<Message>, s: State, handed: seq<Message>, a: Action)
    requires Enabled(s, a) && InOrder(written, s, handed)
    requires !a.Send? && !a.CallerSend? && !a.Receive? && !a.Write?
    ensures InOrder(written, Apply(s, a), handed)
  {
    if a.CloseNotify? {
      assert written + [] + s.channel == written + s.channel;
    }
  }

  /**
   * First in, first out: until the writer ends, what it has written, what it holds and what waits are
   * what was handed over, in that order; and afterwards what it has written is the first of it.
   */
  lemma {:induction false} WrittenInOrder(states: seq<State>, actions: seq<Action>, n: nat)
    requires Run(states, actions) && n < |states|
    ensures InOrder(Written(states, actions, n), states[n], HandedOver(states, actions, n))
  {
    if n > 0 {
      var s, a := states[n - 1], actions[n - 1];
      var written, handed := Written(states, actions, n - 1), HandedOver(states, actions, n - 1);
      WrittenInOrder(states, actions, n - 1);
      if a.Send? || a.CallerSend? {
        HandingKeepsOrder(written, s, handed, a);
        assert written + [] == written;
      } else if a.Receive? {
        ReceivingKeepsOrder(written, s, handed, a);
        assert written + [] == written && handed + [] == handed;
      } else if a.Write? {
        WritingKeepsOrder(written, s, handed, a);
        assert handed + [] == handed;
      } else {
        OtherKeepsOrder(written, s, handed, a);
        assert written + [] == written && handed + [] == handed;
      }
    }
  }

  // ----- nothing is lost without a failure -----

  ghost predicate AllGone(s: State) {
    && (forall i | 0 <= i < |s.senders| :: s.senders[i].pc.Done?)
    && forall j | 0 <= j < |s.callers| :: s.callers[j].Dropped?
  }

  /** Nothing is lost, and a writer that is ending has nobody left to hear from. */
  ghost predicate Unharmed(s: State) {
    s.lost == 0 && (Ending(s.writer) ==> AllGone(s) && s.channel == [])
  }

  lemma StepUnharmed(s: State, a: Action)
    requires Enabled(s, a) && Unharmed(s) && a != Write(false)
    ensures Unharmed(Apply(s, a))
  {
    StepEnds(s, a);
  }

  /** Over every run in which no write fails, nothing handed over is ever lost. */
  lemma {:induction false} NothingLostWithoutFailure(states: seq<State>, actions: seq<Action>, n: nat)
    requires Run(states, actions) && n < |states|
    requires forall k | 0 <= k < n :: actions[k] != Write(false)
    ensures Unharmed(states[n])
  {
    if n > 0 {
      NothingLostWithoutFailure(states, actions, n - 1);
      StepUnharmed(states[n - 1], actions[n - 1]);
    }
  }

  // ----- how each stream ends -----

  /** What sender `i` has handed over. */
  ghost function Stream(states: seq<State>, actions: seq<Action>, n: nat, i: nat): seq<Parcel>
    requires Run(states, actions) && n < |states|
  {
    if n == 0 then []
    else
      Stream(states, actions, n - 1, i)
      + if actions[n - 1] == Send(i) then [states[n - 1].senders[i].pc.parcel] else []
  }

  function Total(parcels: seq<Parcel>): nat {
    if parcels == [] then 0 else Total(parcels[..|parcels| - 1]) + parcels[|parcels| - 1].Bytes()
  }

  /**
   * A stream so far: chunks, and once it is done exactly one finish or cancel after them; never more
   * bytes than were offered, and a finish only when they are exactly as many.
   */
  ghost predicate Streaming(sender: Sender, parcels: seq<Parcel>) {
    && Total(parcels) + sender.Counted() == sender.sent <= sender.length
    && (forall j | 0 <= j < |parcels| - 1 :: parcels[j].Chunk?)
    && (sender.pc.Done? <==> parcels != [] && !parcels[|parcels| - 1].Chunk?)
    && (sender.pc == Sending(Finish) || (parcels != [] && parcels[|parcels| - 1] == Finish) ==>
          sender.sent == sender.length)
  }

  lemma StreamGrows(parcels: seq<Parcel>, parcel: Parcel)
    ensures Total(parcels + [parcel]) == Total(parcels) + parcel.Bytes()
  {
    assert (parcels + [parcel])[..|parcels|] == parcels;
  }

  lemma ParcelStreams(sender: Sender, after: Sender, parcels: seq<Parcel>)
    requires Streaming(sender, parcels) && sender.pc.Sending?
    requires after == sender.(pc := if sender.pc.parcel.Chunk? then Reading else Done)
    ensures Streaming(after, parcels + [sender.pc.parcel])
  {
    StreamGrows(parcels, sender.pc.parcel);
    var all := parcels + [sender.pc.parcel];
    assert all[|all| - 1] == sender.pc.parcel && forall j | 0 <= j < |parcels| :: all[j] == parcels[j];
  }

  lemma SendStreams(s: State, i: nat, parcels: seq<Parcel>)
    requires i < |s.senders| && Enabled(s, Send(i)) && Streaming(s.senders[i], parcels)
    ensures Streaming(Apply(s, Send(i)).senders[i], parcels + [s.senders[i].pc.parcel])
  {
    ParcelStreams(s.senders[i], Apply(s, Send(i)).senders[i], parcels);
  }

  lemma OtherStreams(s: State, a: Action, i: nat, parcels: seq<Parcel>)
    requires Enabled(s, a) && i < |s.senders| == |Apply(s, a).senders|
    requires a != Send(i) && Streaming(s.senders[i], parcels)
    ensures Streaming(Apply(s, a).senders[i], parcels)
  {
  }

  lemma {:induction false} StreamsAttest(states: seq<State>, actions: seq<Action>, n: nat, i: nat)
    requires Run(states, actions) && n < |states| && i < |states[n].senders|
    ensures Streaming(states[n].senders[i], Stream(states, actions, n, i))
  {
    if n > 0 {
      var s, a, parcels := states[n - 1], actions[n - 1], Stream(states, actions, n - 1, i);
      StepSize(s, a);
      StreamsAttest(states, actions, n - 1, i);
      if a == Send(i) {
        SendStreams(s, i, parcels);
      } else {
        OtherStreams(s, a, i, parcels);
        assert parcels + [] == parcels;
      }
    }
  }

  lemma StepSize(s: State, a: Action)
    requires Enabled(s, a)
    ensures |Apply(s, a).senders| == |s.senders|
  {
  }

  /** The ways a stream is given up: an unreadable file, one that shrank or grew, or a closed connection. */
  predicate GivesUp(s: State, a: Action, i: nat)
    requires Enabled(s, a)
  {
    || a == ReadFailed(i)
    || (a == ReadEnd(i) && s.senders[i].sent != s.senders[i].length)
    || (a == CheckClosed(i) && s.closed)
    || (a == Count(i) && s.senders[i].sent + s.senders[i].pc.chunk > s.senders[i].length)
  }

  /** A stream is given up at exactly these steps. */
  lemma StepCancels(s: State, a: Action, i: nat)
    requires Enabled(s, a) && i < |s.senders| == |Apply(s, a).senders|
    ensures Apply(s, a).senders[i].pc == Sending(Cancel) && s.senders[i].pc != Sending(Cancel) <==> GivesUp(s, a, i)
  {
  }

  /** And it comes to its finish exactly when its file has been read to the end at the offered length. */
  lemma StepFinishes(s: State, a: Action, i: nat)
    requires Enabled(s, a) && i < |s.senders| == |Apply(s, a).senders|
    ensures Apply(s, a).senders[i].pc == Sending(Finish) && s.senders[i].pc != Sending(Finish)
       <==> a == ReadEnd(i) && s.senders[i].sent == s.senders[i].length
  {
  }

  /** A stream that was cancelled by a closed connection was cancelled after a write failed or every sender was gone. */
  lemma CancelledForAReason(states: seq<State>, actions: seq<Action>, n: nat, i: nat)
    requires Run(states, actions) && n < |actions| && i < |states[n].senders|
    requires states[n + 1].senders[i].pc == Sending(Cancel) && states[n].senders[i].pc != Sending(Cancel)
    ensures GivesUp(states[n], actions[n], i)
    ensures actions[n] == CheckClosed(i) ==> Ended(actions, n)
  {
    StepSize(states[n], actions[n]);
    StepCancels(states[n], actions[n], i);
    if actions[n] == CheckClosed(i) {
      ClosedOnlyAtItsEnd(states, actions, n);
    }
  }
}
