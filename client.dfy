/**
 The client of client.go: it builds the handshake record from the two lines the
 user typed, waits for the broker's presence report, then runs a send loop
 (terminal lines to the connection) and a receive loop (connection lines to the
 terminal). Reads are inputs; what is sent or shown is returned.
 */
module Client {
  import opened Common

  /** The record the client marshals: exactly the keys "name" and "to", holding
      the two input lines unchanged. */
  predicate IsHandshakeRecord(m: map<Bytes, Bytes>, name: Bytes, to: Bytes)
  {
    m.Keys == {"name", "to"} && m["name"] == name && m["to"] == to
  }

  /** Filling the map `data` (client.go:46-49). */
  method BuildHandshake(name: Bytes, to: Bytes) returns (data: map<Bytes, Bytes>)
    ensures IsHandshakeRecord(data, name, to)
  {
    data := map[];
    data := data["name" := name];
    data := data["to" := to];
  }

  /** The two prompts and the record sent (client.go:28-55): a failed read of
      either line ends the client before anything is sent. The identities keep
      the '\n' that `ReadBytes` leaves on them. */
  method Start(nameRead: LineRead, toRead: LineRead) returns (sent: Option<map<Bytes, Bytes>>)
    ensures sent.Some? <==> nameRead.Line? && toRead.Line?
    ensures sent.Some? ==> IsHandshakeRecord(sent.value, nameRead.bytes, toRead.bytes)
  {
    if nameRead.LineError? {
      return None;
    }
    if toRead.LineError? {
      return None;
    }
    var data := BuildHandshake(nameRead.bytes, toRead.bytes);
    sent := Some(data);
  }

  /** A read while waiting ends the wait exactly when it did not fail with a
      non-EOF error and its bytes are exactly "online": the 8192-byte buffer
      cannot cut a longer payload down to "online". */
  predicate EndsWait(r: ReadResult): (b: bool)
    ensures b <==> r.err != Failed && r.data == Online
  {
    r.err != Failed && Received(r) == Online
  }

  /** The number of reads the wait loop makes before it leaves, if it leaves. */
  function WaitForOnline(later: seq<ReadResult>): (n: Option<nat>)
    ensures n.Some? ==> 0 < n.value <= |later| && EndsWait(later[n.value - 1])
    ensures n.Some? ==> forall j :: 0 <= j < n.value - 1 ==> !EndsWait(later[j])
    ensures n.None? <==> forall j :: 0 <= j < |later| ==> !EndsWait(later[j])
  {
    if later == [] then None
    else if EndsWait(later[0]) then Some(1)
    else match WaitForOnline(later[1..])
      case None => None
      case Some(k) => Some(k + 1)
  }

  /** Where the client is after the presence exchange: in the conversation,
      having made `waitReads` reads after the first response, or still waiting
      when the reads run out. */
  datatype Phase = Conversation(waitReads: nat) | Waiting

  /** The presence exchange (client.go:58-91): the first response is used with
      whatever error came with it; only an exact "offline" makes the client wait. */
  function AwaitOutcome(first: ReadResult, later: seq<ReadResult>): (p: Phase)
    ensures p == Conversation(0) <==> Received(first) != Offline
    ensures p.Conversation? ==> p.waitReads <= |later|
  {
    if Received(first) != Offline then Conversation(0)
    else match WaitForOnline(later)
      case None => Waiting
      case Some(n) => Conversation(n)
  }

  /** The wait loop as written: a non-EOF error skips the rest of the iteration,
      anything but "online" keeps the loop going. */
  method AwaitPeer(first: ReadResult, later: seq<ReadResult>) returns (phase: Phase)
    ensures phase == AwaitOutcome(first, later)
  {
    var response := Received(first);
    if response != Offline {
      return Conversation(0);
    }
    phase := Waiting;
    var i := 0;
    while i < |later|
      invariant 0 <= i <= |later|
      invariant forall j :: 0 <= j < i ==> !EndsWait(later[j])
    {
      var r := later[i];
      i := i + 1;
      if r.err == Failed {
        continue;
      }
      if Received(r) == Online {
        phase := Conversation(i);
        break;
      }
    }
  }

  /** Anything but an exact "offline" first response, including an empty one
      after EOF or an error, enters the conversation at once. */
  lemma NotOfflineEntersAtOnce(first: ReadResult, later: seq<ReadResult>)
    requires Received(first) != Offline
    ensures AwaitOutcome(first, later) == Conversation(0)
  {
  }

  /** After "offline" the client enters the conversation exactly when some later
      read delivers exactly "online" without a non-EOF error, and at the first
      such read. */
  lemma OfflineWaitsForOnline(first: ReadResult, later: seq<ReadResult>)
    requires Received(first) == Offline
    ensures AwaitOutcome(first, later).Conversation? <==>
              exists j :: 0 <= j < |later| && EndsWait(later[j])
    ensures AwaitOutcome(first, later).Conversation? ==>
              var n := AwaitOutcome(first, later).waitReads;
              0 < n <= |later| && EndsWait(later[n - 1]) &&
              forall j :: 0 <= j < n - 1 ==> !EndsWait(later[j])
  {
  }

  /** A non-EOF read error never ends the wait, whatever bytes came with it. */
  lemma FailedReadsKeepWaiting(first: ReadResult, later: seq<ReadResult>)
    requires Received(first) == Offline
    requires forall j :: 0 <= j < |later| ==> later[j].err == Failed
    ensures AwaitOutcome(first, later) == Waiting
  {
  }

  /** `sendMessage` (client.go:113-127): every line typed goes to the connection
      unchanged and in order, until the first failed terminal read. */
  method SendMessages(input: seq<LineRead>) returns (sent: seq<Bytes>)
    ensures sent == LinesUntilError(input)
  {
    sent := [];
    var i := 0;
    while i < |input|
      invariant 0 <= i <= |input|
      invariant LinesUntilError(input) == sent + LinesUntilError(input[i..])
    {
      LinesUntilErrorAt(input, i);
      if input[i].LineError? {
        assert sent + [] == sent;
        return;
      }
      sent := sent + [input[i].bytes];
      i := i + 1;
    }
    assert input[i..] == [];
  }

  /** `receiveMessage` (client.go:129-144): shows every line received until the
      first failed read, then closes the connection and calls `wg.Done` once;
      `waitCount` is the wait group's counter, 1 after `wg.Add(1)`, so `main`
      returns exactly when the receive loop has ended. */
  method ReceiveMessages(incoming: seq<LineRead>) returns (shown: seq<Bytes>, connClosed: bool, waitCount: int)
    ensures shown == LinesUntilError(incoming)
    ensures connClosed <==> LineError in incoming
    ensures waitCount == if connClosed then 0 else 1
  {
    shown, connClosed, waitCount := [], false, 1;
    var i := 0;
    while i < |incoming|
      invariant 0 <= i <= |incoming|
      invariant LinesUntilError(incoming) == shown + LinesUntilError(incoming[i..])
      invariant forall j :: 0 <= j < i ==> incoming[j].Line?
    {
      LinesUntilErrorAt(incoming, i);
      if incoming[i].LineError? {
        assert shown + [] == shown;
        connClosed := true;
        waitCount := waitCount - 1;
        return;
      }
      shown := shown + [incoming[i].bytes];
      i := i + 1;
    }
  }
}
