/**
 The two programs together: the record the client builds, once the broker has
 decoded it, yields the two lines typed, and the conversation between alice and
 bob runs through the broker's steps as the protocol describes. Marshalling and
 decoding are not modelled. One broker write reaches the peer as one read.
 */
module Scenario {
  import opened Common
  import opened Session
  import Client

  /** Identities as the client sends them, with the '\n' `ReadBytes` keeps. */
  const Alice: Bytes := "alice\n"
  const Bob: Bytes := "bob\n"

  /** The broker's field lookups on the client's record, as decoded, give back
      exactly the two lines typed. */
  lemma RecordRoundTrip(m: map<Bytes, Bytes>, name: Bytes, to: Bytes)
    requires Client.IsHandshakeRecord(m, name, to)
    ensures Field(m, "name") == name && Field(m, "to") == to
  {
  }

  /** A connection's inbox as the reads that deliver it, one write per read. */
  function Chunks(inbox: seq<Bytes>): (rs: seq<ReadResult>)
    ensures |rs| == |inbox|
    ensures forall j :: 0 <= j < |inbox| ==> rs[j] == ReadResult(inbox[j], NoError)
  {
    if inbox == [] then [] else [ReadResult(inbox[0], NoError)] + Chunks(inbox[1..])
  }

  /** The state after alice (connection 1) and then bob (connection 2) complete
      their handshakes, each asking for the other. */
  function BothConnected(ma: map<Bytes, Bytes>, mb: map<Bytes, Bytes>): State
  {
    Handshake(Handshake(Initial, Arrival(1, 101, Some(ma))), Arrival(2, 102, Some(mb)))
  }

  /** alice hears "offline" and waits, bob's handshake reports "online" to bob
      and to alice, and both clients enter the conversation. */
  lemma {:induction false} BothEnterConversation(ma: map<Bytes, Bytes>, mb: map<Bytes, Bytes>)
    requires Client.IsHandshakeRecord(ma, Alice, Bob)
    requires Client.IsHandshakeRecord(mb, Bob, Alice)
    ensures Inbox(Handshake(Initial, Arrival(1, 101, Some(ma))).writes, 1) == [Offline]
    ensures var s := BothConnected(ma, mb);
      && Inbox(s.writes, 1) == [Offline, Online]
      && Inbox(s.writes, 2) == [Online]
      && s.relays == [Relay(1, Bob, Polling), Relay(2, Alice, Polling)]
      && s.registry == map[Alice := UserDetail(101, 1), Bob := UserDetail(102, 2)]
    ensures var s := BothConnected(ma, mb);
      var alice, bob := Chunks(Inbox(s.writes, 1)), Chunks(Inbox(s.writes, 2));
      && Client.AwaitOutcome(alice[0], alice[1..]) == Client.Conversation(1)
      && Client.AwaitOutcome(bob[0], bob[1..]) == Client.Conversation(0)
  {
    RecordRoundTrip(ma, Alice, Bob);
    RecordRoundTrip(mb, Bob, Alice);
    var s1 := Handshake(Initial, Arrival(1, 101, Some(ma)));
    assert s1.writes == [Write(1, Offline)];
    assert s1.registry == map[Alice := UserDetail(101, 1)];
    var s := BothConnected(ma, mb);
    assert s.writes == [Write(1, Offline), Write(2, Online), Write(1, Online)];
    InboxAppend([Write(1, Offline)], [Write(2, Online), Write(1, Online)], 1);
    InboxAppend([Write(1, Offline)], [Write(2, Online), Write(1, Online)], 2);
    InboxAppend([Write(2, Online)], [Write(1, Online)], 1);
    InboxAppend([Write(2, Online)], [Write(1, Online)], 2);
    var alice := Chunks(Inbox(s.writes, 1));
    assert alice[1..] == [ReadResult(Online, NoError)];
    assert Client.WaitForOnline(alice[1..]) == Some(1);
  }

  /** bob's line "hi\n" reaches alice verbatim through alice's relay, which reads
      from bob's connection; when alice then disconnects, bob's relay fails its
      read from alice, closes bob's connection and removes alice only; alice's
      relay then finds bob still registered, but on the connection just closed,
      so its read fails too and the registry ends up empty. */
  lemma {:induction false} ConversationAndTeardown(ma: map<Bytes, Bytes>, mb: map<Bytes, Bytes>)
    requires Client.IsHandshakeRecord(ma, Alice, Bob)
    requires Client.IsHandshakeRecord(mb, Bob, Alice)
    ensures var s := BothConnected(ma, mb);
      && s.relays[0].user in s.registry
      && Poll(s, 0).relays[0].phase == Reading(2)
    ensures var s := BothConnected(ma, mb);
      s.relays[0].user in s.registry &&
      var hi := Deliver(Poll(s, 0), 0, Line("hi\n"));
      && Inbox(hi.writes, 1) == [Offline, Online, "hi\n"]
      && hi.relays[1].phase == Polling && hi.relays[1].user in hi.registry
      && Poll(hi, 1).relays[1].phase == Reading(1)
      && var gone := Deliver(Poll(hi, 1), 1, LineError);
      && Alice !in gone.registry
      && gone.registry == map[Bob := UserDetail(102, 2)]
      && gone.closed == {2}
      && gone.relays[1].phase == Finished
      && gone.relays[0].phase == Polling
      && gone.relays[0].user in gone.registry
      && Poll(gone, 0).relays[0].phase == Reading(2)
      && 2 in Poll(gone, 0).closed
      && var last := Deliver(Poll(gone, 0), 0, LineError);
      && last.registry == map[]
      && last.closed == {1, 2}
      && last.relays == [Relay(1, Bob, Finished), Relay(2, Alice, Finished)]
  {
    BothEnterConversation(ma, mb);
    var s := BothConnected(ma, mb);
    var hi := Deliver(Poll(s, 0), 0, Line("hi\n"));
    assert hi.writes == s.writes + [Write(1, "hi\n")];
    InboxAppend(s.writes, [Write(1, "hi\n")], 1);
    var gone := Deliver(Poll(hi, 1), 1, LineError);
    assert gone.registry == s.registry - {Alice};
    var last := Deliver(Poll(gone, 0), 0, LineError);
    assert last.registry == gone.registry - {Bob};
  }
}
