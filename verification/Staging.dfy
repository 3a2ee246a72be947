/** A transfer staged on a host over one or more attempts. */
module Staging {
  import opened Base

  type Bytes = seq<bv8>

  const STREAM_CHUNK_BYTES: nat := 64 * 1024

  datatype Plan = Fresh(length: nat) | Resume(length: nat, staged: nat) {
    function Staged(): nat { if Fresh? then 0 else staged }

    /** The declared length less what is staged; nothing when more than that is staged. */
    function Remaining(): nat { if Fresh? then length else if staged <= length then length - staged else 0 }
  }

  /** What one round of the copy meets: the source's answer, and how a failing write left the file. */
  datatype Round =
    | Moves(upTo: nat)
    | ReadFails
    | WriteFails(upTo: nat, stored: nat)

  datatype Outcome = Complete(bytes: nat, digest: string) | Interrupted(staged: nat) | Failed

  function Min(a: nat, b: nat): nat { if a < b then a else b }

  /** How much one read yields: what was wanted, what the buffer holds, what there is. */
  function Yield(source: Bytes, left: nat, upTo: nat): (n: nat)
    ensures n <= |source| && n <= left && n <= upTo && n <= STREAM_CHUNK_BYTES
    ensures n == 0 <==> source == [] || left == 0 || upTo == 0
  {
    Min(Min(left, STREAM_CHUNK_BYTES), Min(|source|, upTo))
  }

  /** The file after copying, and whether a read or a write failed on the way. */
  function Copied(file: Bytes, source: Bytes, left: nat, rounds: seq<Round>): (Bytes, bool)
    decreases |rounds|
  {
    if left == 0 || rounds == [] then (file, false)
    else match rounds[0]
      case ReadFails => (file, true)
      case Moves(upTo) =>
        var n := Yield(source, left, upTo);
        if n == 0 then (file, false) else Copied(file + source[..n], source[n..], left - n, rounds[1..])
      case WriteFails(upTo, stored) =>
        var n := Yield(source, left, upTo);
        if n == 0 then (file, false) else (file + source[..Min(stored, n)], true)
  }

  /** What is kept of the stored bytes, and the outcome reported for them. */
  function Judged(stored: Bytes, failed: bool, length: nat, digest: Bytes -> string): (Option<Bytes>, Outcome) {
    if failed && stored == [] then (None, Failed)
    else if |stored| < length then (Some(stored), Interrupted(|stored|))
    else if |stored| > length then (None, Failed)
    else (Some(stored), Complete(|stored|, digest(stored)))
  }

  function Before(host: Option<Bytes>, plan: Plan): Bytes {
    if plan.Fresh? || host.None? then [] else host.value
  }

  function Attempted(
    host: Option<Bytes>, plan: Plan, source: Bytes, rounds: seq<Round>, flushFails: bool, digest: Bytes -> string)
    : (Option<Bytes>, Outcome)
  {
    var (stored, failed) := Copied(Before(host, plan), source, plan.Remaining(), rounds);
    Judged(stored, failed || flushFails, plan.length, digest)
  }

  /** Count and hash a file in blocks of whatever size each read returns. */
  method FileReceipt(file: Bytes) returns (bytes: nat, hashed: Bytes)
    ensures bytes == |file| && hashed == file
  {
    bytes, hashed := 0, [];
    while bytes < |file|
      invariant bytes <= |file| && hashed == file[..bytes]
    {
      var read: nat :| 1 <= read <= STREAM_CHUNK_BYTES && bytes + read <= |file|;
      hashed := hashed + file[bytes..bytes + read];
      bytes := bytes + read;
    }
  }

  /** The staged file on the host, when there is one. */
  class HostFile {
    var stored: Option<Bytes>

    constructor ()
      ensures stored == None
    {
      stored := None;
    }

    /** Append what the source yields, then read back what is there and judge it. */
    method Attempt(plan: Plan, source: Bytes, rounds: seq<Round>, flushFails: bool, digest: Bytes -> string)
      returns (outcome: Outcome)
      modifies this
      ensures (stored, outcome) == Attempted(old(stored), plan, source, rounds, flushFails, digest)
    {
      var file := Before(stored, plan);
      var expected, written, failed := plan.Remaining(), 0, false;
      var i, taken := 0, 0;
      while written < expected && i < |rounds|
        invariant i <= |rounds| && written <= expected && taken <= |source| && !failed
        invariant Copied(Before(old(stored), plan), source, expected, rounds)
               == Copied(file, source[taken..], expected - written, rounds[i..])
      {
        var rest := source[taken..];
        if rounds[i].ReadFails? {
          failed := true;
          break;
        }
        var n := Yield(rest, expected - written, rounds[i].upTo);
        if n == 0 {
          break;
        }
        if rounds[i].WriteFails? {
          file := file + rest[..Min(rounds[i].stored, n)];
          failed := true;
          break;
        }
        assert rounds[i..][1..] == rounds[i + 1..] && rest[n..] == source[taken + n..];
        file := file + rest[..n];
        written, taken, i := written + n, taken + n, i + 1;
      }
      assert Copied(Before(old(stored), plan), source, expected, rounds) == (file, failed);
      var bytes, hashed := FileReceipt(file);
      if (failed || flushFails) && bytes == 0 {
        stored := None;
        return Failed;
      }
      if bytes < plan.length {
        stored := Some(file);
        return Interrupted(bytes);
      }
      if bytes > plan.length {
        stored := None;
        return Failed;
      }
      stored := Some(file);
      return Complete(bytes, digest(hashed));
    }
  }

  // ----- what one attempt does to what was staged -----

  lemma {:induction false} CopiedGrows(file: Bytes, source: Bytes, left: nat, rounds: seq<Round>)
    ensures file <= Copied(file, source, left, rounds).0
    decreases |rounds|
  {
    if left > 0 && rounds != [] && rounds[0].Moves? {
      var n := Yield(source, left, rounds[0].upTo);
      if n > 0 {
        CopiedGrows(file + source[..n], source[n..], left - n, rounds[1..]);
      }
    }
  }

  /**
   * Whatever the plan and the source, an attempt never lets go of a byte that was there unless more
   * came than was declared. It reports a failure exactly then, or when something failed and nothing
   * was ever stored; otherwise what was copied is what stays, and the outcome says how much that is.
   */
  lemma AttemptKeepsBytes(
    host: Option<Bytes>, plan: Plan, source: Bytes, rounds: seq<Round>, flushFails: bool, digest: Bytes -> string)
    ensures var (copied, cut) := Copied(Before(host, plan), source, plan.Remaining(), rounds);
      var (after, outcome) := Attempted(host, plan, source, rounds, flushFails, digest);
      && Before(host, plan) <= copied
      && (outcome.Failed? <==> ((cut || flushFails) && copied == []) || |copied| > plan.length)
      && (outcome.Failed? ==> after.None?)
      && (!outcome.Failed? ==> after == Some(copied))
      && (outcome.Interrupted? <==> !outcome.Failed? && |copied| < plan.length)
      && (outcome.Interrupted? ==> outcome.staged == |copied|)
      && (outcome.Complete? ==> outcome == Complete(|copied|, digest(copied)))
  {
    CopiedGrows(Before(host, plan), source, plan.Remaining(), rounds);
  }

  /** How much of `there` bytes the first `k` rounds move, if each of them moves what it can. */
  function Moved(there: nat, left: nat, rounds: seq<Round>, k: nat): (m: nat)
    requires k <= |rounds|
    ensures m <= there && m <= left
  {
    if k == 0 then 0
    else
      var before := Moved(there, left, rounds, k - 1);
      before + Min(Min(left - before, STREAM_CHUNK_BYTES),
                   Min(there - before, if rounds[k - 1].ReadFails? then 0 else rounds[k - 1].upTo))
  }

  /** Round `j` moves something. */
  ghost predicate Moves(there: nat, left: nat, rounds: seq<Round>, j: nat)
    requires j < |rounds|
  {
    rounds[j].Moves? && Moved(there, left, rounds, j) < Moved(there, left, rounds, j + 1)
  }

  /** With something still to come, round `k` fails to read, or to write some of what it read. */
  ghost predicate Fails(there: nat, left: nat, rounds: seq<Round>, k: nat)
    requires k < |rounds|
  {
    && Moved(there, left, rounds, k) < left
    && (rounds[k].ReadFails? || (rounds[k].WriteFails? && rounds[k].upTo > 0 && Moved(there, left, rounds, k) < there))
  }

  /** Round `k` is come to, and is one that fails. */
  ghost predicate CutAt(there: nat, left: nat, rounds: seq<Round>, k: nat) {
    k < |rounds| && Fails(there, left, rounds, k) && forall j | 0 <= j < k :: Moves(there, left, rounds, j)
  }

  lemma {:induction false} MovedShifts(there: nat, left: nat, rounds: seq<Round>, k: nat)
    requires 0 < k <= |rounds|
    ensures var n := Moved(there, left, rounds, 1);
      Moved(there, left, rounds, k) == n + Moved(there - n, left - n, rounds[1..], k - 1)
  {
    if k > 1 {
      MovedShifts(there, left, rounds, k - 1);
      assert rounds[1..][k - 2] == rounds[k - 1];
    }
  }

  lemma RoundShifts(there: nat, left: nat, rounds: seq<Round>, k: nat)
    requires 0 < k < |rounds|
    ensures var n := Moved(there, left, rounds, 1);
      && (Moves(there, left, rounds, k) <==> Moves(there - n, left - n, rounds[1..], k - 1))
      && (Fails(there, left, rounds, k) <==> Fails(there - n, left - n, rounds[1..], k - 1))
  {
    MovedShifts(there, left, rounds, k);
    MovedShifts(there, left, rounds, k + 1);
    assert rounds[1..][k - 1] == rounds[k];
  }

  lemma CutComesLater(there: nat, left: nat, rounds: seq<Round>, k: nat, there': nat, left': nat)
    requires 0 < k < |rounds| && Moves(there, left, rounds, 0)
    requires there' == there - Moved(there, left, rounds, 1) && left' == left - Moved(there, left, rounds, 1)
    requires CutAt(there', left', rounds[1..], k - 1)
    ensures CutAt(there, left, rounds, k)
  {
    RoundShifts(there, left, rounds, k);
    forall j | 0 <= j < k ensures Moves(there, left, rounds, j) {
      if j > 0 {
        RoundShifts(there, left, rounds, j);
      }
    }
  }

  lemma CutComesSooner(there: nat, left: nat, rounds: seq<Round>, k: nat, there': nat, left': nat)
    requires 0 < k < |rounds| && CutAt(there, left, rounds, k)
    requires there' == there - Moved(there, left, rounds, 1) && left' == left - Moved(there, left, rounds, 1)
    ensures CutAt(there', left', rounds[1..], k - 1)
  {
    RoundShifts(there, left, rounds, k);
    forall j | 0 <= j < k - 1 ensures Moves(there', left', rounds[1..], j) {
      assert Moves(there, left, rounds, j + 1);
      RoundShifts(there, left, rounds, j + 1);
    }
  }

  ghost predicate Cut(there: nat, left: nat, rounds: seq<Round>) {
    exists k: nat :: CutAt(there, left, rounds, k)
  }

  lemma CutLater(there: nat, left: nat, rounds: seq<Round>, there': nat, left': nat)
    requires rounds != [] && Moves(there, left, rounds, 0)
    requires there' == there - Moved(there, left, rounds, 1) && left' == left - Moved(there, left, rounds, 1)
    ensures Cut(there, left, rounds) <==> Cut(there', left', rounds[1..])
  {
    if k: nat :| CutAt(there, left, rounds, k) {
      assert Fails(there, left, rounds, k) ==> k > 0;
      CutComesSooner(there, left, rounds, k, there', left');
    }
    if k: nat :| CutAt(there', left', rounds[1..], k) {
      CutComesLater(there, left, rounds, k + 1, there', left');
    }
  }

  lemma CutNow(there: nat, left: nat, rounds: seq<Round>)
    requires rounds != [] && !Moves(there, left, rounds, 0)
    ensures Cut(there, left, rounds) <==> Fails(there, left, rounds, 0)
  {
    if k: nat :| CutAt(there, left, rounds, k) {
      if k > 0 {
        assert false;
      }
    }
    assert Fails(there, left, rounds, 0) ==> CutAt(there, left, rounds, 0);
  }

  /** A copy is cut exactly when it comes to a read that fails, or to a write that fails of something read. */
  lemma {:induction false} CutExactly(file: Bytes, source: Bytes, left: nat, rounds: seq<Round>)
    ensures Copied(file, source, left, rounds).1 <==> Cut(|source|, left, rounds)
    decreases |rounds|
  {
    if rounds != [] {
      assert Moved(|source|, left, rounds, 0) == 0;
      if Moves(|source|, left, rounds, 0) {
        var n := Yield(source, left, rounds[0].upTo);
        assert n == Moved(|source|, left, rounds, 1);
        CutExactly(file + source[..n], source[n..], left - n, rounds[1..]);
        CutLater(|source|, left, rounds, |source| - n, left - n);
      } else {
        CutNow(|source|, left, rounds);
      }
    }
  }

  // ----- over any number of attempts -----

  /** A source that says what belongs next: it ends early, or goes on past the end. */
  ghost predicate Honest(source: Bytes, content: Bytes, from: nat) {
    from <= |content| && (source <= content[from..] || content[from..] <= source)
  }

  lemma GoesOn(file: Bytes, source: Bytes, content: Bytes, n: nat)
    requires file <= content && Honest(source, content, |file|) && n <= |source| && |file| + n <= |content|
    ensures file <= file + source[..n] == content[..|file| + n] <= content
    ensures Honest(source[n..], content, |file| + n)
  {
    var left := content[|file|..];
    assert source[..n] == left[..n];
    assert content[|file| + n..] == left[n..];
  }

  lemma {:induction false} CopiedIsPrefix(file: Bytes, source: Bytes, left: nat, rounds: seq<Round>, content: Bytes)
    requires file <= content && left == |content| - |file| && Honest(source, content, |file|)
    ensures file <= Copied(file, source, left, rounds).0 <= content
    decreases |rounds|
  {
    if left > 0 && rounds != [] && !rounds[0].ReadFails? {
      var n := Yield(source, left, rounds[0].upTo);
      if rounds[0].Moves? && n > 0 {
        GoesOn(file, source, content, n);
        CopiedIsPrefix(file + source[..n], source[n..], left - n, rounds[1..], content);
      } else if rounds[0].WriteFails? {
        GoesOn(file, source, content, Min(rounds[0].stored, n));
      }
    }
  }

  /** The host holds nothing, or a beginning of the content. */
  ghost predicate Sound(host: Option<Bytes>, content: Bytes) {
    host.Some? ==> host.value <= content
  }

  /** Start afresh on a host that holds nothing; otherwise go on from the host's own count. */
  function NextPlan(host: Option<Bytes>, length: nat): Plan {
    if host.None? then Fresh(length) else Resume(length, |host.value|)
  }

  datatype Try = Try(source: Bytes, rounds: seq<Round>, flushFails: bool)

  /** One attempt keeps the host sound, and its outcome says exactly what the host holds. */
  lemma AttemptIsExact(host: Option<Bytes>, content: Bytes, attempt: Try, digest: Bytes -> string)
    requires Sound(host, content)
    requires Honest(attempt.source, content, NextPlan(host, |content|).Staged())
    ensures var (after, outcome) :=
              Attempted(host, NextPlan(host, |content|), attempt.source, attempt.rounds, attempt.flushFails, digest);
      && Sound(after, content)
      && (outcome.Complete? <==> after == Some(content))
      && (outcome.Complete? ==> outcome == Complete(|content|, digest(content)))
      && (outcome.Interrupted? ==> after.Some? && outcome.staged == |after.value| < |content|)
      && (outcome.Failed? <==> after.None?)
      && (host.Some? && after.Some? ==> host.value <= after.value)
      && (host.Some? && host.value != [] ==> after.Some? && host.value <= after.value)
  {
    var plan := NextPlan(host, |content|);
    CopiedIsPrefix(Before(host, plan), attempt.source, plan.Remaining(), attempt.rounds, content);
    var stored := Copied(Before(host, plan), attempt.source, plan.Remaining(), attempt.rounds).0;
    assert |stored| == |content| ==> stored == content;
  }

  /** The host after a first fresh attempt and each attempt that follows it. */
  function HostAfter(attempts: seq<Try>, length: nat, digest: Bytes -> string): Option<Bytes> {
    if attempts == [] then None
    else
      var last := attempts[|attempts| - 1];
      var host := HostAfter(attempts[..|attempts| - 1], length, digest);
      Attempted(host, NextPlan(host, length), last.source, last.rounds, last.flushFails, digest).0
  }

  ghost predicate AllHonest(attempts: seq<Try>, content: Bytes, digest: Bytes -> string) {
    forall i | 0 <= i < |attempts| ::
      Honest(attempts[i].source, content, NextPlan(HostAfter(attempts[..i], |content|, digest), |content|).Staged())
  }

  /** However often a transfer is cut and resumed, what is staged is a beginning of the content. */
  lemma {:induction false} StagedIsAlwaysPrefix(attempts: seq<Try>, content: Bytes, digest: Bytes -> string)
    requires AllHonest(attempts, content, digest)
    ensures Sound(HostAfter(attempts, |content|, digest), content)
  {
    if attempts != [] {
      var n := |attempts| - 1;
      var before := attempts[..n];
      forall i | 0 <= i < n
        ensures Honest(before[i].source, content,
                 NextPlan(HostAfter(before[..i], |content|, digest), |content|).Staged())
      {
        assert before[..i] == attempts[..i];
      }
      StagedIsAlwaysPrefix(before, content, digest);
      AttemptIsExact(HostAfter(before, |content|, digest), content, attempts[n], digest);
    }
  }

  lemma TakenTwice(file: Bytes, source: Bytes, n: nat, left: nat)
    requires n <= left <= |source|
    ensures file + source[..n] + source[n..][..left - n] == file + source[..left]
  {
    assert source[..n] + source[n..][..left - n] == source[..left];
  }

  lemma {:induction false} CleanCopyFinishes(file: Bytes, source: Bytes, left: nat, rounds: seq<Round>)
    requires forall i | 0 <= i < |rounds| :: rounds[i].Moves? && rounds[i].upTo > 0
    requires left <= |rounds| && left <= |source|
    ensures Copied(file, source, left, rounds) == (file + source[..left], false)
    decreases |rounds|
  {
    if left == 0 {
      assert file + source[..0] == file;
    } else {
      var n := Yield(source, left, rounds[0].upTo);
      CleanCopyFinishes(file + source[..n], source[n..], left - n, rounds[1..]);
      TakenTwice(file, source, n, left);
    }
  }

  /** Whatever happened before, one attempt that meets no failure completes the transfer. */
  lemma CleanAttemptCompletes(host: Option<Bytes>, content: Bytes, attempt: Try, digest: Bytes -> string)
    requires Sound(host, content) && !attempt.flushFails
    requires var from := NextPlan(host, |content|).Staged();
             Honest(attempt.source, content, from)
             && |content| - from <= |attempt.source| && |content| - from <= |attempt.rounds|
    requires forall i | 0 <= i < |attempt.rounds| :: attempt.rounds[i].Moves? && attempt.rounds[i].upTo > 0
    ensures Attempted(host, NextPlan(host, |content|), attempt.source, attempt.rounds, false, digest)
         == (Some(content), Complete(|content|, digest(content)))
  {
    var plan := NextPlan(host, |content|);
    var file, left := Before(host, plan), plan.Remaining();
    CleanCopyFinishes(file, attempt.source, left, attempt.rounds);
    assert attempt.source[..left] == content[plan.Staged()..];
    assert file + attempt.source[..left] == content;
  }
}
