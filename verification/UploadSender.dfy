/** One streaming sender: what it hands over for the reads and the room it was given. */
module UploadSender {
  import opened Base

  type Bytes = seq<bv8>

  datatype ReadResult = Data(bytes: Bytes) | Failed

  /** One round of the loop: what the read returned, and whether room came before the connection closed. */
  datatype Round = Round(read: ReadResult, room: bool)

  datatype Message = UploadChunk(bytes: Bytes) | FinishUpload(digest: string) | CancelUpload

  datatype Sent = Sent(messages: seq<Message>, ok: bool)

  /** What is handed over from here on, `sent` having gone out already; no more rounds is end of file. */
  function Streamed(rounds: seq<Round>, sent: Bytes, length: nat, digest: Bytes -> string): Sent {
    if rounds == [] || rounds[0].read == Data([]) then
      if |sent| == length then Sent([FinishUpload(digest(sent))], true) else Sent([CancelUpload], false)
    else if rounds[0].read.Failed? || !rounds[0].room || |sent| + |rounds[0].read.bytes| > length then
      Sent([CancelUpload], false)
    else
      var bytes := rounds[0].read.bytes;
      var rest := Streamed(rounds[1..], sent + bytes, length, digest);
      Sent([UploadChunk(bytes)] + rest.messages, rest.ok)
  }

  /** The loop of `send_file`, and the cancellation `stream_file_upload` adds when it fails. */
  method SendFile(rounds: seq<Round>, length: nat, digest: Bytes -> string) returns (messages: seq<Message>, ok: bool)
    ensures Sent(messages, ok) == Streamed(rounds, [], length, digest)
  {
    messages, ok := [], true;
    var i, sent := 0, 0;
    var hashed: Bytes := [];
    while i < |rounds| && rounds[i].read != Data([])
      invariant i <= |rounds| && ok && sent == |hashed|
      invariant var rest := Streamed(rounds[i..], hashed, length, digest);
                Streamed(rounds, [], length, digest) == Sent(messages + rest.messages, rest.ok)
    {
      assert rounds[i..][1..] == rounds[i + 1..];
      if rounds[i].read.Failed? || !rounds[i].room {
        return messages + [CancelUpload], false;
      }
      var bytes := rounds[i].read.bytes;
      sent := sent + |bytes|;
      if sent > length {
        return messages + [CancelUpload], false;
      }
      hashed := hashed + bytes;
      ghost var rest := Streamed(rounds[i + 1..], hashed, length, digest).messages;
      assert messages + ([UploadChunk(bytes)] + rest) == messages + [UploadChunk(bytes)] + rest;
      messages := messages + [UploadChunk(bytes)];
      i := i + 1;
    }
    if sent != length {
      return messages + [CancelUpload], false;
    }
    return messages + [FinishUpload(digest(hashed))], true;
  }

  /** The chunks among the messages, joined. */
  function Payload(messages: seq<Message>): Bytes {
    if messages == [] then []
    else (if messages[0].UploadChunk? then messages[0].bytes else []) + Payload(messages[1..])
  }

  /** What the file held, when every read up to its end succeeded and found room. */
  function Contents(rounds: seq<Round>): Option<Bytes> {
    if rounds == [] || rounds[0].read == Data([]) then Some([])
    else if rounds[0].read.Failed? || !rounds[0].room || Contents(rounds[1..]).None? then None
    else Some(rounds[0].read.bytes + Contents(rounds[1..]).value)
  }

  lemma PayloadGrows(sent: Bytes, bytes: Bytes, rest: seq<Message>)
    ensures Payload([UploadChunk(bytes)] + rest) == bytes + Payload(rest)
    ensures sent + Payload([UploadChunk(bytes)] + rest) == sent + bytes + Payload(rest)
  {
    assert ([UploadChunk(bytes)] + rest)[1..] == rest;
    assert sent + (bytes + Payload(rest)) == sent + bytes + Payload(rest);
  }

  /**
   * Whatever the reads and the connection do, a transfer is chunks followed by exactly one
   * finish or one cancel, and never more bytes than were offered. It finishes exactly when the
   * file was read to its end and held exactly the offered length; then the chunks are that
   * file and the digest attests to them and nothing else.
   */
  lemma {:induction false} StreamAttests(rounds: seq<Round>, sent: Bytes, length: nat, digest: Bytes -> string)
    requires |sent| <= length
    ensures var r := Streamed(rounds, sent, length, digest);
            var last := |r.messages| - 1;
      && r.messages != [] && (forall i | 0 <= i < last :: r.messages[i].UploadChunk? && r.messages[i].bytes != [])
      && |sent + Payload(r.messages)| <= length
      && (r.ok <==> Contents(rounds).Some? && |sent + Contents(rounds).value| == length)
      && (r.ok ==> Payload(r.messages) == Contents(rounds).value)
      && r.messages[last] == if r.ok then FinishUpload(digest(sent + Payload(r.messages))) else CancelUpload
  {
    if rounds == [] || rounds[0].read == Data([]) {
      assert sent + [] == sent;
    } else if rounds[0].read.Data? && rounds[0].room && |sent| + |rounds[0].read.bytes| <= length {
      var bytes := rounds[0].read.bytes;
      StreamAttests(rounds[1..], sent + bytes, length, digest);
      var rest := Streamed(rounds[1..], sent + bytes, length, digest).messages;
      PayloadGrows(sent, bytes, rest);
    } else {
      assert Payload([CancelUpload]) == [];
    }
  }
}
