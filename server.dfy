/**
 The broker of server.go as an object: the global `ip_user_map` and the effects
 of the accept loop and of the `exchangeMessages` goroutines are fields that the
 methods update in place. Each method is one atomic step of the program and is
 specified by the function of module Session that describes that step.
 */
module Server {
  import opened Common
  import Session

  class Broker {
    /** `ip_user_map`: identity to address and connection. */
    var registry: map<Bytes, Session.UserDetail>
    /** Every `Write` call made on any connection, in order. */
    var writes: seq<Session.Write>
    /** The connections the broker has closed. */
    var closed: set<ConnId>
    /** The `exchangeMessages` goroutines started so far. */
    var relays: seq<Session.Relay>

    ghost function Abs(): Session.State
      reads this
    {
      Session.State(registry, writes, closed, relays)
    }

    ghost predicate Valid()
      reads this
    {
      Session.Inv(Abs())
    }

    constructor ()
      ensures Valid() && Abs() == Session.Initial
    {
      registry, writes, closed, relays := map[], [], {}, [];
    }

    /** The accept loop body for connection `c` from `ip` (server.go:58-99);
        `decoded` is the outcome of `json.Unmarshal` on `getData(c)`. */
    method Handshake(c: ConnId, ip: Addr, decoded: Option<map<Bytes, Bytes>>)
      requires Valid()
      modifies this
      ensures Valid()
      ensures Abs() == Session.Handshake(old(Abs()), Session.Arrival(c, ip, decoded))
    {
      ghost var before := Abs();
      Session.HandshakeKeepsInv(before, Session.Arrival(c, ip, decoded));
      match decoded
      case None =>
        closed := closed + {c};
      case Some(m) =>
        var name := Session.Field(m, "name");
        var to := Session.Field(m, "to");
        // one locked block: insert, then look up the peer
        registry := registry[name := Session.UserDetail(ip, c)];
        var toExists := to in registry;
        var presence: seq<Session.Write>;
        if toExists {
          var toDetail := registry[to];
          presence := [Session.Write(c, Online), Session.Write(toDetail.conn, Online)];
        } else {
          presence := [Session.Write(c, Offline)];
        }
        writes := writes + presence;
        relays := relays + [Session.Relay(c, to, Session.Polling)];
        assert Abs() == Session.Handshake(before, Session.Arrival(c, ip, decoded));
    }

    /** The accept loop of `main`, over the connections accepted before `Accept`
        fails (server.go:48-100). */
    method Serve(arrivals: seq<Session.Arrival>)
      requires Valid()
      modifies this
      ensures Valid()
      ensures Abs() == Session.Serve(old(Abs()), arrivals)
    {
      var k := 0;
      while k < |arrivals|
        invariant 0 <= k <= |arrivals|
        invariant Valid()
        invariant Session.Serve(old(Abs()), arrivals) == Session.Serve(Abs(), arrivals[k..])
      {
        assert arrivals[k..][1..] == arrivals[k + 1..];
        var a := arrivals[k];
        Handshake(a.conn, a.ip, a.decoded);
        k := k + 1;
      }
    }

    /** Relay `i` finds its target registered and fetches its connection
        (server.go:126-140). */
    method Poll(i: nat)
      requires Valid()
      requires i < |relays| && relays[i].phase == Session.Polling
      requires relays[i].user in registry
      modifies this
      ensures Valid()
      ensures Abs() == Session.Poll(old(Abs()), i)
    {
      Session.PollKeepsInv(Abs(), i);
      var r := relays[i];
      var userConn := registry[r.user].conn;
      relays := relays[i := r.(phase := Session.Reading(userConn))];
    }

    /** Relay `i` gets the outcome of its line read (server.go:143-158); a
        read from a connection the broker closed fails. */
    method Deliver(i: nat, read: LineRead)
      requires Valid()
      requires i < |relays| && relays[i].phase.Reading?
      requires relays[i].phase.from in closed ==> read == LineError
      modifies this
      ensures Valid()
      ensures Abs() == Session.Deliver(old(Abs()), i, read)
    {
      Session.DeliverKeepsInv(Abs(), i, read);
      var r := relays[i];
      match read
      case LineError =>
        closed := closed + {r.conn};
        registry := registry - {r.user};
        relays := relays[i := r.(phase := Session.Finished)];
      case Line(buffer) =>
        writes := writes + [Session.Write(r.conn, buffer)];
        relays := relays[i := r.(phase := Session.Polling)];
    }

    /** `exchangeMessages` for relay `i` while no other event interleaves
        (server.go:121-161): poll, read a line, forward it; stop at a failure. */
    method ExchangeMessages(i: nat, results: seq<LineRead>)
      requires Valid()
      requires i < |relays| && relays[i].phase == Session.Polling
      requires relays[i].user in registry
      requires Session.SourceClosedFails(Abs(), i, results)
      modifies this
      ensures Valid()
      ensures Abs() == Session.Exchange(old(Abs()), i, results)
    {
      var k := 0;
      while k < |results|
        invariant 0 <= k <= |results|
        invariant Valid()
        invariant i < |relays| && relays[i].phase == Session.Polling
        invariant relays[i].user in registry
        invariant Session.SourceClosedFails(Abs(), i, results[k..])
        invariant Session.Exchange(old(Abs()), i, results) == Session.Exchange(Abs(), i, results[k..])
      {
        assert results[k..][0] == results[k] && results[k..][1..] == results[k + 1..];
        Poll(i);
        Deliver(i, results[k]);
        if results[k].LineError? {
          return;
        }
        k := k + 1;
      }
    }
  }
}
