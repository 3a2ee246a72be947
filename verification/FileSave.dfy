/** Receiving a file a window of chunks at a time, and keeping it only when it is the one attested to. */
module FileSave {
  import opened Base

  type Bytes = seq<bv8>

  const SAVE_WINDOW_CHUNKS: nat := 8

  datatype Progress = Pull(chunks: nat) | Waiting

  /** How one write to the temporary file went: all of it, or an error after some of it. */
  datatype Write = Written | Stopped(after: nat)

  datatype Refusal = MoreThanOffered | NotWritten | StoppedShort | WrongDigest | NotFlushed | NameTaken

  /** Everything a save keeps. `absorbed` is what the hasher has been fed. */
  datatype Save = Save(length: nat, digest: string, received: nat, absorbed: Bytes, outstanding: nat, file: Bytes)

  function Begun(length: nat, digest: string): Save { Save(length, digest, 0, [], 0, []) }

  function Started(s: Save): Save { s.(outstanding := SAVE_WINDOW_CHUNKS) }

  function Landed(bytes: Bytes, write: Write): Bytes {
    if write.Written? || |bytes| <= write.after then bytes else bytes[..write.after]
  }

  /** The save after one chunk, and the answer to it. */
  function Chunked(s: Save, bytes: Bytes, write: Write): (Save, Result<Progress, Refusal>) {
    if s.received + |bytes| > s.length && bytes != [] then (s, Err(MoreThanOffered))
    else if write.Stopped? then (s.(file := s.file + Landed(bytes, write)), Err(NotWritten))
    else
      var received := s.received + |bytes|;
      var left := if s.outstanding == 0 then 0 else s.outstanding - 1;
      var more := received < s.length && left == 0;
      (s.(received := received, absorbed := s.absorbed + bytes, file := s.file + bytes,
          outstanding := if more then SAVE_WINDOW_CHUNKS else left),
       Ok(if more then Pull(SAVE_WINDOW_CHUNKS) else Waiting))
  }

  /** What appears under the finished name, or why nothing does. */
  function Finished(s: Save, hash: Bytes -> string, flushed: bool, free: bool): Result<Bytes, Refusal> {
    if s.received != s.length then Err(StoppedShort)
    else if s.digest != "" && hash(s.absorbed) != s.digest then Err(WrongDigest)
    else if !flushed then Err(NotFlushed)
    else if !free then Err(NameTaken)
    else Ok(s.file)
  }

  class FileSave {
    const length: nat
    const digest: string
    var received: nat
    var absorbed: Bytes
    var outstanding: nat
    var file: Bytes

    function View(): Save
      reads this
    {
      Save(length, digest, received, absorbed, outstanding, file)
    }

    constructor (length: nat, digest: string)
      ensures View() == Begun(length, digest)
    {
      this.length, this.digest := length, digest;
      received, absorbed, outstanding, file := 0, [], 0, [];
    }

    /** Eight chunks are owed from now on, whatever was owed before. */
    method Start() returns (progress: Progress)
      modifies this
      ensures View() == Started(old(View())) && progress == Pull(SAVE_WINDOW_CHUNKS)
    {
      outstanding := SAVE_WINDOW_CHUNKS;
      progress := Pull(SAVE_WINDOW_CHUNKS);
    }

    /** Counts, hashes and stores one chunk; a chunk past the offer changes nothing. */
    method Chunk(bytes: Bytes, write: Write) returns (answer: Result<Progress, Refusal>)
      modifies this
      ensures (View(), answer) == Chunked(old(View()), bytes, write)
    {
      var remaining := if received <= length then length - received else 0;
      if |bytes| > remaining {
        return Err(MoreThanOffered);
      }
      file := file + Landed(bytes, write);
      if write.Stopped? {
        return Err(NotWritten);
      }
      absorbed := absorbed + bytes;
      received := received + |bytes|;
      outstanding := if outstanding == 0 then 0 else outstanding - 1;
      if received >= length || outstanding > 0 {
        return Ok(Waiting);
      }
      outstanding := SAVE_WINDOW_CHUNKS;
      answer := Ok(Pull(SAVE_WINDOW_CHUNKS));
    }

    /** Answers the bytes now under the finished name, or the first of five checks that failed. */
    method Finish(hash: Bytes -> string, flushed: bool, free: bool) returns (saved: Result<Bytes, Refusal>)
      ensures saved == Finished(View(), hash, flushed, free)
    {
      if received != length {
        return Err(StoppedShort);
      }
      var computed := hash(absorbed);
      if digest != "" && computed != digest {
        return Err(WrongDigest);
      }
      if !flushed {
        return Err(NotFlushed);
      }
      if !free {
        return Err(NameTaken);
      }
      saved := Ok(file);
    }
  }

  // ----- every history of one save -----

  datatype Call = StartCall | ChunkCall(bytes: Bytes, write: Write)

  function After(length: nat, digest: string, calls: seq<Call>): Save {
    if calls == [] then Begun(length, digest)
    else
      var s, last := After(length, digest, calls[..|calls| - 1]), calls[|calls| - 1];
      if last.StartCall? then Started(s) else Chunked(s, last.bytes, last.write).0
  }

  /** The chunks that fit the offer and were written whole, joined. */
  function Accepted(length: nat, calls: seq<Call>): Bytes {
    if calls == [] then []
    else
      var before, last := Accepted(length, calls[..|calls| - 1]), calls[|calls| - 1];
      if last.ChunkCall? && last.write.Written? && |before| + |last.bytes| <= length then before + last.bytes
      else before
  }

  /** How many bytes failed writes left in the file. */
  function Debris(length: nat, calls: seq<Call>): nat {
    if calls == [] then 0
    else
      var front, last := calls[..|calls| - 1], calls[|calls| - 1];
      var fits := last.ChunkCall? && |Accepted(length, front)| + |last.bytes| <= length;
      Debris(length, front) + if fits && last.write.Stopped? then |Landed(last.bytes, last.write)| else 0
  }

  lemma ChunkGrows(s: Save, bytes: Bytes, write: Write)
    requires s.received == |s.absorbed| <= s.length && |s.absorbed| <= |s.file|
    ensures var (after, answer) := Chunked(s, bytes, write);
      var fits := |s.absorbed| + |bytes| <= s.length;
      && after.absorbed == (if fits && write.Written? then s.absorbed + bytes else s.absorbed)
      && after.received == |after.absorbed|
      && |after.file| - |after.absorbed|
         == |s.file| - |s.absorbed| + (if fits && write.Stopped? then |Landed(bytes, write)| else 0)
      && (s.file == s.absorbed && |after.file| == |after.absorbed| ==> after.file == after.absorbed)
  {
  }

  /** What a save has counted and hashed is what it accepted, and its window stays within bounds. */
  lemma {:induction false} SaveIsFaithful(length: nat, digest: string, calls: seq<Call>)
    ensures var s := After(length, digest, calls);
      && s.length == length && s.digest == digest
      && s.absorbed == Accepted(length, calls) && s.received == |s.absorbed| <= length
      && s.outstanding <= SAVE_WINDOW_CHUNKS
      && |s.file| == |s.absorbed| + Debris(length, calls)
      && (Debris(length, calls) == 0 ==> s.file == s.absorbed)
  {
    if calls != [] {
      var front, last := calls[..|calls| - 1], calls[|calls| - 1];
      SaveIsFaithful(length, digest, front);
      if last.ChunkCall? {
        var s := After(length, digest, front);
        ChunkGrows(s, last.bytes, last.write);
      }
    }
  }

  /** How much of the offer is still to come. */
  function Remaining(s: Save): int { s.length - s.received }

  /**
   * A chunk is refused exactly when it is more than is still to come, and not written exactly when it
   * fits and its write stopped; otherwise eight more are asked for when the window is used up short of
   * the end, and nothing is.
   */
  lemma ChunkAnswersExactly(s: Save, bytes: Bytes, write: Write)
    requires s.received <= s.length
    ensures var (after, answer) := Chunked(s, bytes, write);
      && (answer == Err(MoreThanOffered) <==> |bytes| > Remaining(s))
      && (answer == Err(NotWritten) <==> |bytes| <= Remaining(s) && write.Stopped?)
      && (answer.Ok? <==> |bytes| <= Remaining(s) && write.Written?)
      && (answer.Ok? ==> (answer.value.Pull? <==> Remaining(after) > 0 && s.outstanding <= 1))
      && (answer.Ok? && answer.value.Pull? ==> answer.value.chunks == 8 && after.outstanding == 8)
      && (answer.Ok? && answer.value.Waiting? && s.outstanding > 0 ==> after.outstanding == s.outstanding - 1)
      && (answer.Err? ==> after == s.(file := after.file))
      && (answer == Err(MoreThanOffered) ==> after == s)
  {
  }

  /** Why a save is not put in place: the first of its checks that fails. */
  lemma RefusedInOrder(s: Save, hash: Bytes -> string, flushed: bool, free: bool)
    ensures var r, attested := Finished(s, hash, flushed, free), s.digest == "" || hash(s.absorbed) == s.digest;
      && (r == Err(StoppedShort) <==> s.received != s.length)
      && (r == Err(WrongDigest) <==> s.received == s.length && !attested)
      && (r == Err(NotFlushed) <==> s.received == s.length && attested && !flushed)
      && (r == Err(NameTaken) <==> s.received == s.length && attested && flushed && !free)
      && (r.Ok? ==> r.value == s.file)
  {
  }

  /** Once opened, a save that is short of its length is always owed at least one chunk. */
  lemma {:induction false} NeverStarved(length: nat, digest: string, calls: seq<Call>)
    requires StartCall in calls
    ensures var s := After(length, digest, calls); s.received < length ==> s.outstanding >= 1
  {
    var front, last := calls[..|calls| - 1], calls[|calls| - 1];
    SaveIsFaithful(length, digest, front);
    if last.ChunkCall? {
      assert calls == front + [last];
      NeverStarved(length, digest, front);
    }
  }

  /** A file is put in place exactly when all of it came, it hashes as attested, and the system allows it. */
  lemma SavedExactlyWhenWhole(
    length: nat, digest: string, calls: seq<Call>, hash: Bytes -> string, flushed: bool, free: bool)
    ensures var chunks := Accepted(length, calls);
      Finished(After(length, digest, calls), hash, flushed, free).Ok?
      <==> |chunks| == length && (digest == "" || hash(chunks) == digest) && flushed && free
  {
    SaveIsFaithful(length, digest, calls);
  }

  /** Call `k` is a chunk within the offer whose write failed after some of it. */
  predicate LeavesDebris(length: nat, calls: seq<Call>, k: nat)
    requires k < |calls|
  {
    && calls[k].ChunkCall? && calls[k].write.Stopped? && Landed(calls[k].bytes, calls[k].write) != []
    && |Accepted(length, calls[..k])| + |calls[k].bytes| <= length
  }

  lemma {:induction false} DebrisExactly(length: nat, calls: seq<Call>)
    ensures Debris(length, calls) == 0 <==> forall k | 0 <= k < |calls| :: !LeavesDebris(length, calls, k)
  {
    if calls != [] {
      var n := |calls| - 1;
      var front := calls[..n];
      DebrisExactly(length, front);
      assert forall k | 0 <= k < n :: front[..k] == calls[..k];
      assert forall k | 0 <= k < n :: LeavesDebris(length, front, k) <==> LeavesDebris(length, calls, k);
      assert Debris(length, calls) == Debris(length, front) <==> !LeavesDebris(length, calls, n);
    }
  }

  /** A caller that never goes on past a failed write leaves none, and what it has put in place is what it sent. */
  lemma NoFailedWriteNoDebris(length: nat, digest: string, calls: seq<Call>)
    requires forall k | 0 <= k < |calls| && calls[k].ChunkCall? :: calls[k].write.Written?
    ensures Debris(length, calls) == 0 && After(length, digest, calls).file == Accepted(length, calls)
  {
    DebrisExactly(length, calls);
    SaveIsFaithful(length, digest, calls);
  }

  /**
   * What is put in place is what was counted and hashed exactly when no failed write left part of a
   * chunk behind.
   */
  lemma SavedIsAcceptedExactly(
    length: nat, digest: string, calls: seq<Call>, hash: Bytes -> string, flushed: bool, free: bool)
    requires Finished(After(length, digest, calls), hash, flushed, free).Ok?
    ensures (Finished(After(length, digest, calls), hash, flushed, free).value == Accepted(length, calls)
             <==> Debris(length, calls) == 0)
  {
    SaveIsFaithful(length, digest, calls);
  }

  /** A save driven past a failed write can put in place a file its digest does not describe. */
  lemma RetriedWriteCorrupts(a: bv8, b: bv8, hash: Bytes -> string)
    ensures var calls := [StartCall, ChunkCall([a, b], Stopped(1)), ChunkCall([a, b], Written)];
      && Accepted(2, calls) == [a, b]
      && Finished(After(2, hash([a, b]), calls), hash, true, true) == Ok([a, a, b])
  {
    var digest, begin, cut := hash([a, b]), [StartCall], [StartCall, ChunkCall([a, b], Stopped(1))];
    var calls := [StartCall, ChunkCall([a, b], Stopped(1)), ChunkCall([a, b], Written)];
    assert calls[..2] == cut && cut[..1] == begin && begin[..0] == [];
    assert Accepted(2, begin) == [] && Accepted(2, cut) == [];
    assert After(2, digest, begin) == Started(Begun(2, digest));
    var stopped, retried := After(2, digest, cut), After(2, digest, calls);
    assert stopped.file == [a] && stopped.absorbed == [];
    assert retried == Chunked(stopped, [a, b], Written).0;
    assert retried.file == [a, a, b] && retried.absorbed == [a, b];
  }
}

/** A save and the sender that paces itself by the save's credit, over every run. */
module Download {
  import opened Base
  import opened FileSave

  const DOWNLOAD_CHUNK_BYTES: nat := 256 * 1024
  const MAX_OUTSTANDING_CHUNKS: nat := 8

  /** The sender's counters, the two channels, and the receiving save. */
  datatype Wire = Wire(sent: nat, credit: nat, chunks: seq<Bytes>, grants: seq<nat>, save: Save)

  datatype Step = TakeGrant | SendChunk(bytes: nat) | TakeChunk

  function Sum(grants: seq<nat>): nat {
    if grants == [] then 0 else grants[0] + Sum(grants[1..])
  }

  function Joined(chunks: seq<Bytes>): Bytes {
    if chunks == [] then [] else chunks[0] + Joined(chunks[1..])
  }

  predicate Enabled(w: Wire, content: Bytes, step: Step) {
    match step
    case TakeGrant => w.sent < |content| && w.credit == 0 && w.grants != []
    case SendChunk(bytes) =>
      && w.sent < |content| && w.credit > 0
      && 1 <= bytes <= DOWNLOAD_CHUNK_BYTES && w.sent + bytes <= |content|
    case TakeChunk => w.chunks != []
  }

  /** One step of the sender or of the receiver, when no write fails. */
  function Next(w: Wire, content: Bytes, step: Step): Wire
    requires Enabled(w, content, step)
  {
    match step
    case TakeGrant =>
      var credit := w.credit + w.grants[0];
      w.(credit := if credit <= MAX_OUTSTANDING_CHUNKS then credit else MAX_OUTSTANDING_CHUNKS, grants := w.grants[1..])
    case SendChunk(bytes) =>
      w.(sent := w.sent + bytes, credit := w.credit - 1, chunks := w.chunks + [content[w.sent..w.sent + bytes]])
    case TakeChunk =>
      var (save, answer) := Chunked(w.save, w.chunks[0], Written);
      w.(chunks := w.chunks[1..], save := save,
         grants := if answer.Ok? && answer.value.Pull? then w.grants + [answer.value.chunks] else w.grants)
  }

  /** The offer has been accepted and the window opened. */
  function Opened(content: Bytes, digest: string): Wire {
    Wire(0, 0, [], [SAVE_WINDOW_CHUNKS], Started(Begun(|content|, digest)))
  }

  /** Steps that can be taken one after the other from the opened state. */
  ghost predicate Runs(content: Bytes, digest: string, steps: seq<Step>)
    decreases |steps|, 0
  {
    steps == []
    || (Runs(content, digest, steps[..|steps| - 1])
        && Enabled(Reached(content, digest, steps[..|steps| - 1]), content, steps[|steps| - 1]))
  }

  /** Where they lead. */
  ghost function Reached(content: Bytes, digest: string, steps: seq<Step>): Wire
    requires Runs(content, digest, steps)
    decreases |steps|, 1
  {
    if steps == [] then Opened(content, digest)
    else Next(Reached(content, digest, steps[..|steps| - 1]), content, steps[|steps| - 1])
  }

  ghost predicate Stuck(w: Wire, content: Bytes) {
    forall step :: !Enabled(w, content, step)
  }

  /** What every reachable state keeps. */
  ghost predicate Paced(w: Wire, content: Bytes, digest: string) {
    && w.save.length == |content| && w.save.digest == digest && w.sent <= |content|
    && w.save.absorbed + Joined(w.chunks) == content[..w.sent]
    && w.save.file == w.save.absorbed && w.save.received == |w.save.absorbed|
    && w.credit + |w.chunks| + Sum(w.grants) == w.save.outstanding <= SAVE_WINDOW_CHUNKS
    && (w.save.received < |content| ==> w.save.outstanding >= 1)
    && (forall i | 0 <= i < |w.grants| :: w.grants[i] > 0)
    && (forall i | 0 <= i < |w.chunks| :: w.chunks[i] != [])
  }

  lemma {:induction false} SumAppends(grants: seq<nat>, grant: nat)
    ensures Sum(grants + [grant]) == Sum(grants) + grant
  {
    if grants == [] {
      assert [grant][1..] == [];
    } else {
      assert (grants + [grant])[1..] == grants[1..] + [grant];
      SumAppends(grants[1..], grant);
    }
  }

  lemma {:induction false} JoinedAppends(chunks: seq<Bytes>, chunk: Bytes)
    ensures Joined(chunks + [chunk]) == Joined(chunks) + chunk
  {
    if chunks == [] {
      assert [chunk][1..] == [];
    } else {
      assert (chunks + [chunk])[1..] == chunks[1..] + [chunk];
      JoinedAppends(chunks[1..], chunk);
    }
  }

  lemma TakeChunkKeeps(w: Wire, content: Bytes, digest: string)
    requires Paced(w, content, digest) && Enabled(w, content, TakeChunk)
    ensures Paced(Next(w, content, TakeChunk), content, digest)
    ensures Next(w, content, TakeChunk).save.received == w.save.received + |w.chunks[0]|
  {
    var chunk, rest := w.chunks[0], Joined(w.chunks[1..]);
    assert w.save.absorbed + (chunk + rest) == w.save.absorbed + chunk + rest;
    assert |w.save.absorbed| + |chunk| <= |content[..w.sent]|;
    SumAppends(w.grants, SAVE_WINDOW_CHUNKS);
  }

  lemma SendChunkKeeps(w: Wire, content: Bytes, digest: string, bytes: nat)
    requires Paced(w, content, digest) && Enabled(w, content, SendChunk(bytes))
    ensures Paced(Next(w, content, SendChunk(bytes)), content, digest)
  {
    var chunk := content[w.sent..w.sent + bytes];
    JoinedAppends(w.chunks, chunk);
    assert content[..w.sent] + chunk == content[..w.sent + bytes];
    assert w.save.absorbed + (Joined(w.chunks) + chunk) == w.save.absorbed + Joined(w.chunks) + chunk;
  }

  /** Work left, in steps: every step of either side uses some up. */
  function Work(w: Wire, content: Bytes): int {
    3 * (|content| - w.sent) + 2 * |w.chunks| + |w.grants|
  }

  lemma StepKeeps(w: Wire, content: Bytes, digest: string, step: Step)
    requires Paced(w, content, digest) && Enabled(w, content, step)
    ensures Paced(Next(w, content, step), content, digest)
    ensures Work(Next(w, content, step), content) < Work(w, content)
  {
    match step
    case TakeGrant =>
    case SendChunk(bytes) => SendChunkKeeps(w, content, digest, bytes);
    case TakeChunk => TakeChunkKeeps(w, content, digest);
  }

  /**
   * In every state of every run, credit, chunks on the way and grants on the way make up what the
   * save is owed, at most the window; what was saved and what is on the way is what was sent.
   */
  lemma {:induction false} RunKeeps(content: Bytes, digest: string, steps: seq<Step>)
    requires Runs(content, digest, steps)
    ensures Paced(Reached(content, digest, steps), content, digest)
    ensures |steps| + Work(Reached(content, digest, steps), content) <= 3 * |content| + 1
  {
    if steps == [] {
      assert content[..0] == [] && [SAVE_WINDOW_CHUNKS][1..] == [];
      assert Sum([SAVE_WINDOW_CHUNKS]) == SAVE_WINDOW_CHUNKS + Sum([]);
    } else {
      var front := steps[..|steps| - 1];
      RunKeeps(content, digest, front);
      StepKeeps(Reached(content, digest, front), content, digest, steps[|steps| - 1]);
    }
  }

  /** No run outlasts the file, and a state with a byte still to come always has a next step. */
  lemma NeverStalls(content: Bytes, digest: string, steps: seq<Step>)
    requires Runs(content, digest, steps)
    ensures |steps| <= 3 * |content| + 1
    ensures Reached(content, digest, steps).save.received < |content| ==>
      !Stuck(Reached(content, digest, steps), content)
  {
    RunKeeps(content, digest, steps);
    var w := Reached(content, digest, steps);
    if w.chunks != [] {
      assert Enabled(w, content, TakeChunk);
    } else if w.save.received < |content| {
      assert w.save.absorbed + [] == w.save.absorbed;
      if w.credit > 0 {
        assert Enabled(w, content, SendChunk(1));
      } else {
        assert Enabled(w, content, TakeGrant);
      }
    }
  }

  /**
   * A run that can go no further has delivered the file: under its name is exactly the content,
   * exactly when the sender attested to no digest or to the content's own.
   */
  lemma FinishedRunSavesTheContent(content: Bytes, digest: string, steps: seq<Step>, hash: Bytes -> string)
    requires Runs(content, digest, steps) && Stuck(Reached(content, digest, steps), content)
    ensures Finished(Reached(content, digest, steps).save, hash, true, true) == Ok(content)
       <==> digest == "" || digest == hash(content)
  {
    var w := Reached(content, digest, steps);
    RunKeeps(content, digest, steps);
    NeverStalls(content, digest, steps);
    assert !Enabled(w, content, TakeChunk);
    assert w.save.absorbed + [] == w.save.absorbed && content[..|content|] == content;
  }
}
