/**
 The broker of server.go as a sequential state machine. The only shared state of
 the Go program, the map `ip_user_map` guarded by `mapMutex`, is `State.registry`;
 the connections' observable effects are a log of writes and the set of closed
 connections; each `exchangeMessages` goroutine is a `Relay`. Every event below is
 one atomic step, as the lock discipline makes it.
 */
module Session {
  import opened Common

  /** `user_detail`: the remote address and the connection of a registered user. */
  datatype UserDetail = UserDetail(ipPort: Addr, conn: ConnId)

  /** One `conn.Write(bytes)` call (its error, like the source's, is ignored). */
  datatype Write = Write(conn: ConnId, bytes: Bytes)

  /** Where an `exchangeMessages` goroutine is: spinning until its target is
      registered, blocked reading a line from the target's connection `from`, or
      returned after its teardown. */
  datatype RelayPhase = Polling | Reading(from: ConnId) | Finished

  /** `go exchangeMessages(conn, user)`: forwards lines read from `user` to `conn`. */
  datatype Relay = Relay(conn: ConnId, user: Bytes, phase: RelayPhase)

  datatype State = State(
    registry: map<Bytes, UserDetail>,
    writes: seq<Write>,
    closed: set<ConnId>,
    relays: seq<Relay>)

  /** One accepted connection with its remote address and what `json.Unmarshal`
      made of the bytes `getData` returned (`None` when it reported an error). */
  datatype Arrival = Arrival(conn: ConnId, ip: Addr, decoded: Option<map<Bytes, Bytes>>)

  const Initial: State := State(map[], [], {}, [])

  /** `m[key]` on a Go `map[string]string`: a missing key reads as "". */
  function Field(m: map<Bytes, Bytes>, key: Bytes): (v: Bytes)
    ensures key in m ==> v == m[key]
    ensures key !in m ==> v == ""
  {
    if key in m then m[key] else ""
  }

  /** `getData`: one read into an 8192-byte buffer; a non-EOF error yields nothing. */
  function GetData(r: ReadResult): (data: Bytes)
    ensures |data| <= BufferSize
    ensures r.err == Failed ==> data == []
    ensures r.err != Failed ==> data <= r.data && |data| == Min(|r.data|, BufferSize)
  {
    if r.err == Failed then [] else Received(r)
  }

  /** The presence writes of a handshake of `name` wanting `to` on connection `c`,
      stated on the registry as it was BEFORE the handshake inserted `name`. */
  function PresenceWrites(s: State, c: ConnId, name: Bytes, to: Bytes): seq<Write>
  {
    if to == name then [Write(c, Online), Write(c, Online)]
    else if to in s.registry then [Write(c, Online), Write(s.registry[to].conn, Online)]
    else [Write(c, Offline)]
  }

  /** One iteration of the accept loop of `main` after `Accept` (server.go:58-99). */
  function Handshake(s: State, a: Arrival): (t: State)
    ensures a.decoded.None? ==> t == s.(closed := s.closed + {a.conn})
    ensures a.decoded.Some? ==>
      var name, to := Field(a.decoded.value, "name"), Field(a.decoded.value, "to");
      && t.registry.Keys == s.registry.Keys + {name}
      && t.registry[name] == UserDetail(a.ip, a.conn)
      && (forall n :: n in s.registry && n != name ==> t.registry[n] == s.registry[n])
      && t.writes == s.writes + PresenceWrites(s, a.conn, name, to)
      && t.closed == s.closed
      && t.relays == s.relays + [Relay(a.conn, to, Polling)]
  {
    match a.decoded
    case None => s.(closed := s.closed + {a.conn})
    case Some(m) =>
      var name, to := Field(m, "name"), Field(m, "to");
      var registry := s.registry[name := UserDetail(a.ip, a.conn)];
      var presence :=
        if to in registry then [Write(a.conn, Online), Write(registry[to].conn, Online)]
        else [Write(a.conn, Offline)];
      State(registry, s.writes + presence, s.closed, s.relays + [Relay(a.conn, to, Polling)])
  }

  /** The spin loop and the connection lookup of `exchangeMessages`
      (server.go:126-140): enabled only once the target is registered. */
  function Poll(s: State, i: nat): (t: State)
    requires i < |s.relays| && s.relays[i].phase == Polling
    requires s.relays[i].user in s.registry
    ensures t.registry == s.registry && t.writes == s.writes && t.closed == s.closed
    ensures |t.relays| == |s.relays|
    ensures forall j :: 0 <= j < |s.relays| && j != i ==> t.relays[j] == s.relays[j]
    ensures t.relays[i] == Relay(s.relays[i].conn, s.relays[i].user,
                                 Reading(s.registry[s.relays[i].user].conn))
  {
    var r := s.relays[i];
    s.(relays := s.relays[i := r.(phase := Reading(s.registry[r.user].conn))])
  }

  /** The outcome of the unlocked line read of `exchangeMessages` and what follows
      it (server.go:143-158): forward the line, or tear down. A read from a
      connection the broker has closed fails, even one already blocked when the
      close happened. */
  function Deliver(s: State, i: nat, read: LineRead): (t: State)
    requires i < |s.relays| && s.relays[i].phase.Reading?
    requires s.relays[i].phase.from in s.closed ==> read == LineError
    ensures |t.relays| == |s.relays|
    ensures forall j :: 0 <= j < |s.relays| && j != i ==> t.relays[j] == s.relays[j]
    ensures t.relays[i].conn == s.relays[i].conn && t.relays[i].user == s.relays[i].user
    ensures read.Line? ==>
      && t.writes == s.writes + [Write(s.relays[i].conn, read.bytes)]
      && t.registry == s.registry && t.closed == s.closed
      && t.relays[i].phase == Polling
    ensures read.LineError? ==>
      && t.writes == s.writes
      && t.closed == s.closed + {s.relays[i].conn}
      && (forall n :: n in t.registry <==> n in s.registry && n != s.relays[i].user)
      && (forall n :: n in t.registry ==> t.registry[n] == s.registry[n])
      && t.relays[i].phase == Finished
  {
    var r := s.relays[i];
    match read
    case Line(buffer) =>
      s.(writes := s.writes + [Write(r.conn, buffer)],
         relays := s.relays[i := r.(phase := Polling)])
    case LineError =>
      s.(closed := s.closed + {r.conn},
         registry := s.registry - {r.user},
         relays := s.relays[i := r.(phase := Finished)])
  }

  /** The accept loop of `main` over the connections accepted before `Accept` fails. */
  function Serve(s: State, arrivals: seq<Arrival>): (t: State)
    ensures s.writes <= t.writes && s.closed <= t.closed && s.relays <= t.relays
    decreases |arrivals|
  {
    if arrivals == [] then s else Serve(Handshake(s, arrivals[0]), arrivals[1..])
  }

  /** `exchangeMessages` for relay `i` when no other event interleaves: every
      iteration polls and then reads one line; a failed read ends the goroutine. */
  function Exchange(s: State, i: nat, results: seq<LineRead>): (t: State)
    requires i < |s.relays| && s.relays[i].phase == Polling
    requires s.relays[i].user in s.registry
    requires SourceClosedFails(s, i, results)
    ensures s.writes <= t.writes && s.closed <= t.closed && |t.relays| == |s.relays|
    decreases |results|
  {
    if results == [] then s
    else
      var t := Deliver(Poll(s, i), i, results[0]);
      if results[0].LineError? then t else Exchange(t, i, results[1..])
  }

  /** The connection relay `i` is about to read from is either open or its
      next read fails (the undisturbed relay loop reads one connection only). */
  predicate SourceClosedFails(s: State, i: nat, results: seq<LineRead>)
    requires i < |s.relays| && s.relays[i].user in s.registry
  {
    s.registry[s.relays[i].user].conn in s.closed ==> results == [] || results[0] == LineError
  }

  /** The writes a connection receives, in order. */
  function Inbox(writes: seq<Write>, c: ConnId): seq<Bytes>
  {
    if writes == [] then []
    else (if writes[0].conn == c then [writes[0].bytes] else []) + Inbox(writes[1..], c)
  }

  /** The writes that forward `lines` to connection `c`, in order. */
  function Tagged(c: ConnId, lines: seq<Bytes>): seq<Write>
  {
    if lines == [] then [] else [Write(c, lines[0])] + Tagged(c, lines[1..])
  }

  // ---------------------------------------------------------------------------
  // Invariant: the broker only ever registers, writes to or reads from
  // connections that completed a handshake, and every returned relay has closed
  // its connection. It is a safety property of its own: the steps above do not
  // need it, and every step is proved to keep it.

  ghost predicate HasRelay(s: State, c: ConnId)
  {
    exists j :: 0 <= j < |s.relays| && s.relays[j].conn == c
  }

  ghost predicate Inv(s: State)
  {
    && (forall n :: n in s.registry ==> HasRelay(s, s.registry[n].conn))
    && (forall k :: 0 <= k < |s.writes| ==> HasRelay(s, s.writes[k].conn))
    && (forall j :: 0 <= j < |s.relays| && s.relays[j].phase.Reading? ==>
          HasRelay(s, s.relays[j].phase.from))
    && (forall j :: 0 <= j < |s.relays| && s.relays[j].phase.Finished? ==>
          s.relays[j].conn in s.closed)
  }

  lemma InitialInv()
    ensures Inv(Initial)
  {
  }

  /** Relays keep their connections across every step, so `HasRelay` persists. */
  lemma HasRelayGrows(s: State, t: State, c: ConnId)
    requires |s.relays| <= |t.relays|
    requires forall j :: 0 <= j < |s.relays| ==> t.relays[j].conn == s.relays[j].conn
    requires HasRelay(s, c)
    ensures HasRelay(t, c)
  {
    var j :| 0 <= j < |s.relays| && s.relays[j].conn == c;
    assert t.relays[j].conn == c;
  }

  lemma HandshakeKeepsInv(s: State, a: Arrival)
    requires Inv(s)
    ensures Inv(Handshake(s, a))
  {
    var t := Handshake(s, a);
    assert |s.relays| <= |t.relays|;
    assert forall j :: 0 <= j < |s.relays| ==> t.relays[j] == s.relays[j];
    forall c | HasRelay(s, c) ensures HasRelay(t, c) { HasRelayGrows(s, t, c); }
    if a.decoded.Some? {
      assert t.relays[|s.relays|].conn == a.conn;
      assert HasRelay(t, a.conn);
    }
  }

  lemma PollKeepsInv(s: State, i: nat)
    requires Inv(s)
    requires i < |s.relays| && s.relays[i].phase == Polling
    requires s.relays[i].user in s.registry
    ensures Inv(Poll(s, i))
  {
  }

  lemma DeliverKeepsInv(s: State, i: nat, read: LineRead)
    requires Inv(s)
    requires i < |s.relays| && s.relays[i].phase.Reading?
    requires s.relays[i].phase.from in s.closed ==> read == LineError
    ensures Inv(Deliver(s, i, read))
  {
  }

  // ---------------------------------------------------------------------------
  // Properties of the handshake

  /** The presence lookup runs after the insertion: talking to oneself reports
      "online", twice, on one's own connection. */
  lemma SelfTalkIsOnline(s: State, a: Arrival)
    requires a.decoded.Some?
    requires Field(a.decoded.value, "name") == Field(a.decoded.value, "to")
    ensures Handshake(s, a).writes == s.writes + [Write(a.conn, Online), Write(a.conn, Online)]
  {
  }

  /** A reconnect under a registered name replaces the entry and evicts nothing:
      the earlier connection stays open and its relays keep running. */
  lemma ReconnectOverwrites(s: State, a: Arrival)
    requires a.decoded.Some? && Field(a.decoded.value, "name") in s.registry
    ensures var t := Handshake(s, a);
      && t.registry.Keys == s.registry.Keys
      && t.registry[Field(a.decoded.value, "name")].conn == a.conn
      && t.closed == s.closed
      && t.relays[..|s.relays|] == s.relays
  {
  }

  /** A record without "name" registers the empty identity; one without "to"
      reports the presence of, and relays from, the empty identity. */
  lemma MissingFieldsReadAsEmpty(s: State, a: Arrival)
    requires a.decoded.Some?
    ensures "name" !in a.decoded.value ==> "" in Handshake(s, a).registry
    ensures "to" !in a.decoded.value ==> Handshake(s, a).relays[|s.relays|].user == ""
  {
  }

  /** Presence is "online" exactly when the peer is the caller itself or was
      registered already; then the caller and the peer's connection each get
      "online". Otherwise exactly one "offline" goes to the caller and no one
      else hears of the handshake. */
  lemma PresenceIff(s: State, a: Arrival)
    requires a.decoded.Some?
    ensures var name, to := Field(a.decoded.value, "name"), Field(a.decoded.value, "to");
      var added := Handshake(s, a).writes[|s.writes|..];
      && (added[0] == Write(a.conn, Online) <==> to == name || to in s.registry)
      && (to == name ==> added == [Write(a.conn, Online), Write(a.conn, Online)])
      && (to != name && to in s.registry ==>
            added == [Write(a.conn, Online), Write(s.registry[to].conn, Online)])
      && (to != name && to !in s.registry ==> added == [Write(a.conn, Offline)])
  {
  }

  /** `getData` hands a short enough payload over whole unless the read failed. */
  lemma GetDataWhole(r: ReadResult)
    requires r.err != Failed && |r.data| <= BufferSize
    ensures GetData(r) == r.data
  {
  }

  // ---------------------------------------------------------------------------
  // Properties of the relay

  /** Teardown of a target some other relay already removed changes no entry. */
  lemma TeardownOfAbsentTargetIsNoOp(s: State, i: nat)
    requires i < |s.relays| && s.relays[i].phase.Reading?
    requires s.relays[i].user !in s.registry
    ensures Deliver(s, i, LineError).registry == s.registry
  {
  }

  /** Teardown removes the target even if it re-registered with a new connection
      while this relay was blocked reading the old one. */
  lemma TeardownRemovesReconnectedTarget(s: State, i: nat)
    requires i < |s.relays| && s.relays[i].phase.Reading?
    requires s.relays[i].user in s.registry
    requires s.registry[s.relays[i].user].conn != s.relays[i].phase.from
    ensures s.relays[i].user !in Deliver(s, i, LineError).registry
  {
  }

  lemma {:induction false} InboxAppend(w: seq<Write>, v: seq<Write>, c: ConnId)
    ensures Inbox(w + v, c) == Inbox(w, c) + Inbox(v, c)
  {
    if w != [] {
      assert (w + v)[1..] == w[1..] + v;
      InboxAppend(w[1..], v, c);
    } else {
      assert w + v == v;
    }
  }

  /** Forwarding fidelity of an undisturbed `exchangeMessages`: exactly the lines
      read before the first failure reach the relay's own connection, verbatim and
      in order; a failure then closes that connection and removes the target only;
      without a failure nothing but the writes changes. */
  lemma {:induction false} ExchangeForwards(s: State, i: nat, results: seq<LineRead>)
    requires i < |s.relays| && s.relays[i].phase == Polling
    requires s.relays[i].user in s.registry
    requires SourceClosedFails(s, i, results)
    ensures var t := Exchange(s, i, results);
      && t.writes == s.writes + Tagged(s.relays[i].conn, LinesUntilError(results))
      && |t.relays| == |s.relays|
      && (forall j :: 0 <= j < |s.relays| && j != i ==> t.relays[j] == s.relays[j])
      && t.relays[i].conn == s.relays[i].conn && t.relays[i].user == s.relays[i].user
      && (LineError in results ==>
            && t.registry == s.registry - {s.relays[i].user}
            && t.closed == s.closed + {s.relays[i].conn}
            && t.relays[i].phase == Finished)
      && (LineError !in results ==>
            t.registry == s.registry && t.closed == s.closed && t.relays == s.relays)
    decreases |results|
  {
    if results != [] {
      var u := Poll(s, i);
      var t := Deliver(u, i, results[0]);
      if results[0].LineError? {
        assert LinesUntilError(results) == [];
        assert t.registry == s.registry - {s.relays[i].user};
      } else {
        assert LinesUntilError(results) == [results[0].bytes] + LinesUntilError(results[1..]);
        assert t.relays[i] == s.relays[i];
        assert t.relays == s.relays;
        ExchangeForwards(t, i, results[1..]);
        assert LineError in results <==> LineError in results[1..];
      }
    }
  }

  /** The relay one arrival starts: none for a failed decode, otherwise one
      reading from the record's `to`. */
  function StartedBy(a: Arrival): seq<Relay>
  {
    match a.decoded
    case None => []
    case Some(m) => [Relay(a.conn, Field(m, "to"), Polling)]
  }

  /** The connection one arrival gets closed by the accept loop, if any. */
  function FailedBy(a: Arrival): set<ConnId>
  {
    if a.decoded.None? then {a.conn} else {}
  }

  /** The relays the accept loop starts, in arrival order. */
  function Started(arrivals: seq<Arrival>): seq<Relay>
  {
    if arrivals == [] then [] else StartedBy(arrivals[0]) + Started(arrivals[1..])
  }

  /** The connections whose handshake record failed to decode. */
  function FailedConns(arrivals: seq<Arrival>): set<ConnId>
  {
    if arrivals == [] then {} else FailedBy(arrivals[0]) + FailedConns(arrivals[1..])
  }

  lemma HandshakeStarts(s: State, a: Arrival)
    ensures Handshake(s, a).relays == s.relays + StartedBy(a)
    ensures Handshake(s, a).closed == s.closed + FailedBy(a)
  {
  }

  /** Every accepted connection leaves one outcome: a failed decode closes it and
      starts no relay, a decoded one starts exactly its relay, in order; the
      relays already running are kept. */
  lemma {:induction false} ServeStartsRelays(s: State, arrivals: seq<Arrival>)
    ensures Serve(s, arrivals).relays == s.relays + Started(arrivals)
    ensures Serve(s, arrivals).closed == s.closed + FailedConns(arrivals)
    decreases |arrivals|
  {
    if arrivals != [] {
      var t := Handshake(s, arrivals[0]);
      HandshakeStarts(s, arrivals[0]);
      ServeStartsRelays(t, arrivals[1..]);
      assert s.relays + Started(arrivals) == t.relays + Started(arrivals[1..]);
    }
  }

  /** The accept loop keeps the invariant. */
  lemma {:induction false} ServeKeepsInv(s: State, arrivals: seq<Arrival>)
    requires Inv(s)
    ensures Inv(Serve(s, arrivals))
    decreases |arrivals|
  {
    if arrivals != [] {
      HandshakeKeepsInv(s, arrivals[0]);
      ServeKeepsInv(Handshake(s, arrivals[0]), arrivals[1..]);
    }
  }
}
