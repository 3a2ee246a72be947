/**
 * The upload window as a protocol: streaming senders, other callers and one writer task,
 * interleaved one atomic operation, channel operation or notification at a time.
 */
module UploadWindow {
  const UPLOAD_CHUNK_BYTES: nat := 512 * 1024
  const UPLOAD_WINDOW_BYTES: nat := 4 * 1024 * 1024

  /** What a sender is about to hand to the channel. */
  datatype Parcel = Chunk(bytes: nat) | Finish | Cancel {
    function Bytes(): nat { if Chunk? then bytes else 0 }
  }

  /** Where one streaming sender is inside `send_file` and `room_to_send`. */
  datatype SenderPc =
    | Reading                      // about to read the file
    | Looping(chunk: nat)          // top of the wait loop
    | Registered(chunk: nat)       // its notification is enabled; about to load `closed`
    | Open(chunk: nat)             // saw the connection open; about to load `queued`
    | Asleep(chunk: nat)           // awaiting the notification
    | Granted(chunk: nat)          // has room; about to count the chunk
    | Sending(parcel: Parcel)      // counted; about to hand it to the channel
    | Done

  datatype Sender = Sender(pc: SenderPc, woken: bool, sent: nat, length: nat) {
    predicate Listening() { pc.Registered? || pc.Open? || pc.Asleep? }

    /** Asleep, and nothing has told it to look again. */
    predicate Stuck() { pc.Asleep? && !woken }

    function Counted(): nat { if pc.Sending? then pc.parcel.Bytes() else 0 }

    function Room(): nat { if pc.Granted? then pc.chunk else 0 }

    predicate Sized() {
      || (pc.Looping? && pc.chunk <= UPLOAD_CHUNK_BYTES) || (pc.Registered? && pc.chunk <= UPLOAD_CHUNK_BYTES)
      || (pc.Open? && pc.chunk <= UPLOAD_CHUNK_BYTES) || (pc.Asleep? && pc.chunk <= UPLOAD_CHUNK_BYTES)
      || (pc.Granted? && pc.chunk <= UPLOAD_CHUNK_BYTES) || pc.Reading? || pc.Sending? || pc.Done?
    }
  }

  /** Anything else that sends: a control message counts nothing, a pasted chunk counts itself. */
  datatype Caller = Idle | Holding(bytes: nat) | Dropped {
    function Counted(): nat { if Holding? then bytes else 0 }
  }

  datatype Message = Message(bytes: nat, streamed: bool) {
    function Streamed(): nat { if streamed then bytes else 0 }
  }

  datatype WriterPc =
    | Receiving
    | Writing(message: Message)
    | Subtracting(message: Message, wrote: bool)
    | Notifying(wrote: bool)
    | Closing
    | CloseNotifying
    | Ended
  {
    function Held(): nat { if Writing? || Subtracting? then message.bytes else 0 }

    function HeldStreamed(): nat { if Writing? || Subtracting? then message.Streamed() else 0 }
  }

  /**
   * `lost` is what was counted and then given to a channel nobody drains; `streamed` and
   * `lostStreamed` are the shares of `queued` and `lost` that streaming senders put there.
   */
  datatype State = State(
    senders: seq<Sender>, callers: seq<Caller>, channel: seq<Message>, writer: WriterPc,
    queued: int, closed: bool, lost: nat, streamed: int, lostStreamed: nat)

  // ----- sums -----

  function Sum<T>(xs: seq<T>, f: T -> nat): nat {
    if xs == [] then 0 else Sum(xs[..|xs| - 1], f) + f(xs[|xs| - 1])
  }

  lemma {:induction false} SumUpdate<T>(xs: seq<T>, i: nat, x: T, f: T -> nat)
    requires i < |xs|
    ensures Sum(xs[i := x], f) == Sum(xs, f) - f(xs[i]) + f(x)
  {
    var n := |xs| - 1;
    if i == n {
      assert xs[i := x][..n] == xs[..n];
    } else {
      SumUpdate(xs[..n], i, x, f);
      assert xs[i := x][..n] == xs[..n][i := x];
    }
  }

  lemma SumAppend<T>(xs: seq<T>, x: T, f: T -> nat)
    ensures Sum(xs + [x], f) == Sum(xs, f) + f(x)
  {
    assert (xs + [x])[..|xs|] == xs;
  }

  lemma {:induction false} SumFront<T>(xs: seq<T>, f: T -> nat)
    requires xs != []
    ensures Sum(xs, f) == f(xs[0]) + Sum(xs[1..], f)
  {
    if |xs| == 1 {
      assert xs[..0] == [] && xs[1..] == [];
    } else {
      var n := |xs| - 1;
      SumFront(xs[..n], f);
      assert xs[..n][1..] == xs[1..][..n - 1];
    }
  }

  lemma {:induction false} SumAtMost<T>(xs: seq<T>, f: T -> nat, most: nat)
    requires forall i | 0 <= i < |xs| :: f(xs[i]) <= most
    ensures Sum(xs, f) <= |xs| * most
  {
    if xs != [] {
      SumAtMost(xs[..|xs| - 1], f, most);
      assert |xs| * most == (|xs| - 1) * most + most;
    }
  }

  function Counted(senders: seq<Sender>): nat { Sum(senders, (s: Sender) => s.Counted()) }

  function Rooms(senders: seq<Sender>): nat { Sum(senders, (s: Sender) => s.Room()) }

  function Pasted(callers: seq<Caller>): nat { Sum(callers, (c: Caller) => c.Counted()) }

  function InChannel(channel: seq<Message>): nat { Sum(channel, (m: Message) => m.bytes) }

  function StreamedInChannel(channel: seq<Message>): nat { Sum(channel, (m: Message) => m.Streamed()) }

  // ----- the steps -----

  datatype Action =
    | Read(i: nat, bytes: nat) | ReadEnd(i: nat) | ReadFailed(i: nat)
    | Register(i: nat) | CheckClosed(i: nat) | CheckQueued(i: nat) | Wake(i: nat)
    | Count(i: nat) | Send(i: nat)
    | CallerCount(j: nat, bytes: nat) | CallerSend(j: nat) | CallerDrop(j: nat)
    | Receive | Write(ok: bool) | Subtract | Notify | HangUp | Close | CloseNotify

  predicate Enabled(s: State, a: Action) {
    match a
    case Read(i, bytes) => i < |s.senders| && s.senders[i].pc.Reading? && 0 < bytes <= UPLOAD_CHUNK_BYTES
    case ReadEnd(i) => i < |s.senders| && s.senders[i].pc.Reading?
    case ReadFailed(i) => i < |s.senders| && s.senders[i].pc.Reading?
    case Register(i) => i < |s.senders| && s.senders[i].pc.Looping?
    case CheckClosed(i) => i < |s.senders| && s.senders[i].pc.Registered?
    case CheckQueued(i) => i < |s.senders| && s.senders[i].pc.Open?
    case Wake(i) => i < |s.senders| && s.senders[i].pc.Asleep? && s.senders[i].woken
    case Count(i) => i < |s.senders| && s.senders[i].pc.Granted?
    case Send(i) => i < |s.senders| && s.senders[i].pc.Sending?
    case CallerCount(j, _) => j < |s.callers| && s.callers[j].Idle?
    case CallerSend(j) => j < |s.callers| && s.callers[j].Holding?
    case CallerDrop(j) => j < |s.callers| && s.callers[j].Idle?
    case Receive => s.writer.Receiving? && s.channel != []
    case Write(_) => s.writer.Writing?
    case Subtract => s.writer.Subtracting?
    case Notify => s.writer.Notifying?
    case HangUp => s.writer.Receiving? && s.channel == []
                   && (forall i | 0 <= i < |s.senders| :: s.senders[i].pc.Done?)
                   && forall j | 0 <= j < |s.callers| :: s.callers[j].Dropped?
    case Close => s.writer.Closing?
    case CloseNotify => s.writer.CloseNotifying?
  }

  function At(s: State, i: nat, pc: SenderPc): State
    requires i < |s.senders|
  {
    s.(senders := s.senders[i := s.senders[i].(pc := pc)])
  }

  /** `notify_waiters`: every enabled notification is delivered. */
  function Woken(senders: seq<Sender>): (r: seq<Sender>)
    ensures |r| == |senders|
    ensures forall i | 0 <= i < |r| :: r[i] == if senders[i].Listening() then senders[i].(woken := true) else senders[i]
  {
    if senders == [] then []
    else
      var n := |senders| - 1;
      Woken(senders[..n]) + [if senders[n].Listening() then senders[n].(woken := true) else senders[n]]
  }

  /** The channel takes a message while the writer task exists, and drops it afterwards. */
  function Delivered(s: State, message: Message): State {
    if s.writer.Ended? then s.(lost := s.lost + message.bytes, lostStreamed := s.lostStreamed + message.Streamed())
    else s.(channel := s.channel + [message])
  }

  function Apply(s: State, a: Action): State
    requires Enabled(s, a)
  {
    match a
    case Read(i, bytes) => At(s, i, Looping(bytes))
    case ReadEnd(i) => At(s, i, Sending(if s.senders[i].sent == s.senders[i].length then Finish else Cancel))
    case ReadFailed(i) => At(s, i, Sending(Cancel))
    case Register(i) =>
      s.(senders := s.senders[i := s.senders[i].(pc := Registered(s.senders[i].pc.chunk), woken := false)])
    case CheckClosed(i) => At(s, i, if s.closed then Sending(Cancel) else Open(s.senders[i].pc.chunk))
    case CheckQueued(i) =>
      var chunk := s.senders[i].pc.chunk;
      At(s, i, if s.queued < UPLOAD_WINDOW_BYTES then Granted(chunk) else Asleep(chunk))
    case Wake(i) => At(s, i, Looping(s.senders[i].pc.chunk))
    case Count(i) =>
      var chunk := s.senders[i].pc.chunk;
      var sent := s.senders[i].sent + chunk;
      if sent > s.senders[i].length then At(s, i, Sending(Cancel))
      else s.(senders := s.senders[i := s.senders[i].(pc := Sending(Chunk(chunk)), sent := sent)],
              queued := s.queued + chunk, streamed := s.streamed + chunk)
    case Send(i) =>
      var parcel := s.senders[i].pc.parcel;
      Delivered(At(s, i, if parcel.Chunk? then Reading else Done), Message(parcel.Bytes(), true))
    case CallerCount(j, bytes) => s.(callers := s.callers[j := Holding(bytes)], queued := s.queued + bytes)
    case CallerSend(j) => Delivered(s.(callers := s.callers[j := Idle]), Message(s.callers[j].bytes, false))
    case CallerDrop(j) => s.(callers := s.callers[j := Dropped])
    case Receive => s.(writer := Writing(s.channel[0]), channel := s.channel[1..])
    case Write(ok) => s.(writer := Subtracting(s.writer.message, ok))
    case Subtract =>
      var m, wrote := s.writer.message, s.writer.wrote;
      if m.bytes > 0
      then s.(queued := s.queued - m.bytes, streamed := s.streamed - m.Streamed(), writer := Notifying(wrote))
      else s.(writer := if wrote then Receiving else Closing)
    case Notify => s.(senders := Woken(s.senders), writer := if s.writer.wrote then Receiving else Closing)
    case HangUp => s.(writer := Closing)
    case Close => s.(closed := true, writer := CloseNotifying)
    case CloseNotify =>
      s.(senders := Woken(s.senders), writer := Ended, channel := [],
         lost := s.lost + InChannel(s.channel), lostStreamed := s.lostStreamed + StreamedInChannel(s.channel))
  }

  ghost predicate Initial(s: State) {
    && (forall i | 0 <= i < |s.senders| :: s.senders[i].pc.Reading? && s.senders[i].sent == 0)
    && (forall j | 0 <= j < |s.callers| :: s.callers[j].Idle?)
    && s.channel == [] && s.writer.Receiving? && s.queued == 0 && !s.closed
    && s.lost == 0 && s.streamed == 0 && s.lostStreamed == 0
  }

  ghost predicate Run(states: seq<State>, actions: seq<Action>) {
    && |states| == |actions| + 1
    && Initial(states[0])
    && forall n | 0 <= n < |actions| :: Enabled(states[n], actions[n]) && states[n + 1] == Apply(states[n], actions[n])
  }
}
