# CLI-Messenger broker and client, modelled in Dafny

CLI-Messenger is a rendezvous relay for two named users.

- **Broker (`server.go`).** Each client connects and sends a record `{name, to}`. The broker registers `name` in its global map `ip_user_map`. It answers `"online"` or `"offline"` depending on whether `to` is registered; when `to` is registered it also sends `"online"` to `to`. It then starts an `exchangeMessages` goroutine (a *relay*). The relay waits until `to` is registered, then keeps reading lines from `to`'s connection and writing them to the new client. On a read failure it closes the client's connection and deletes `to` from the map.
- **Client (`client.go`).** It reads a name and a peer name from the terminal, sends the record and waits for `"online"`. It then runs two loops: a send loop (terminal lines to the connection) and a receive loop (connection lines to the terminal).

Files:

- `common.dfy` (module `Common`): byte strings, connection handles, read outcomes, the 8192-byte read buffer, and the read-until-error loop shape.
- `session.dfy` (module `Session`): the broker as a pure state machine. Its `State` holds the registry, the log of `Write` calls, the closed connections and the relays. It has one function per atomic step (`Handshake`, `Poll`, `Deliver`), the accept loop (`Serve`), the undisturbed relay loop (`Exchange`), an invariant, and the lemmas.
- `server.dfy` (module `Server`): class `Broker`. Its fields are that state, updated in place. Each method is specified as equal to the corresponding `Session` step applied to the old state.
- `client.dfy` (module `Client`): the handshake record, the presence wait loop, `sendMessage` and `receiveMessage`.
- `scenario.dfy` (module `Scenario`): the client record read back by the broker, and the alice/bob conversation from connection to teardown.

Conventions:

- Bytes are `char`s. Go's `string([]byte)` copies bytes unchanged, so identities such as `"alice\n"` (the `'\n'` that `ReadBytes` keeps stays on) are byte strings.
- Connections and addresses are opaque numbers.
- Reads are inputs to the model.
- `Write` calls are an output log. The source ignores `Write` errors, so the log records every call. It does not say whether the transport delivered the bytes.

The model follows the code, including where it departs from what a rendezvous protocol would suggest:

- A decoded record that lacks `name` or `to` is not rejected. Go's map lookup yields `""`, so the empty identity is registered or looked up.
- Identities are not checked for being non-empty.
- A handshake naming oneself as `to` reports `"online"`, twice, to oneself. This is because the lookup follows the insertion.
- A reconnect overwrites the entry and closes nothing.
- Teardown deletes the *target* identity, even when that target has meanwhile re-registered with a new connection.

## Model

| member | source | states |
|---|---|---|
| `Common.Received` | client.go:58-68 | one `conn.Read` into an 8192-byte buffer yields a prefix of the available bytes of length min(available, 8192) |
| `Common.LinesUntilError` | client.go:115-125 | a read-until-error loop consumes no more lines than reads were made |
| `Common.LinesUntilErrorIsPrefix` | client.go:115-125 | the lines a read loop consumes are exactly the reads before the first failure, in order; all reads are consumed iff none failed |
| `Session.Field` | server.go:75-78 | a key of the record yields its value; a missing key yields Go's zero value `""` |
| `Session.GetData` | server.go:104-116 | at most 8192 bytes; empty on a non-EOF error; otherwise a prefix of what arrived, of length min(arrived, 8192), EOF included |
| `Session.GetDataWhole` | server.go:104-116 | a payload of at most 8192 bytes read without a non-EOF error is returned whole |
| `Session.Handshake` | server.go:58-99 | failed decode: close the connection, nothing else changes; otherwise `name` maps to the new connection (overwriting), other entries unchanged, a relay `(conn, to)` starts, and the presence writes are those computed on the registry before the insert |
| `Session.SelfTalkIsOnline` | server.go:75-91 | `name == to` yields two `"online"` writes, both to the caller's own connection |
| `Session.ReconnectOverwrites` | server.go:75 | re-registering a name keeps the key set, points the name at the new connection, closes nothing and stops no relay |
| `Session.MissingFieldsReadAsEmpty` | server.go:75-99 | a record without `name` registers `""`; one without `to` starts a relay targeting `""` |
| `Session.PresenceIff` | server.go:77-96 | the caller gets `"online"` iff `to` is itself or was registered; self-talk writes `"online"` twice to the caller; a registered peer gets the second `"online"` on its registered connection; otherwise the only write is `"offline"` to the caller |
| `Session.Poll` | server.go:126-140 | enabled only when the target is registered; the relay then reads from the target's registered connection; nothing else changes |
| `Session.Deliver` | server.go:143-158 | a read from a connection the broker closed fails; a line is written verbatim to the relay's own connection and nothing else changes; a failure closes that connection, removes only the target's entry and ends the relay |
| `Session.TeardownOfAbsentTargetIsNoOp` | server.go:150-152 | deleting a target that another relay already removed leaves the registry unchanged |
| `Session.TeardownRemovesReconnectedTarget` | server.go:138-152 | teardown removes the target even when the target re-registered on another connection during the read |
| `Session.HandshakeKeepsInv` | server.go:58-99 | a handshake keeps the invariant: registered, written-to and read-from connections all completed a handshake, and every finished relay's connection is closed |
| `Session.PollKeepsInv` | server.go:126-140 | polling keeps the invariant |
| `Session.DeliverKeepsInv` | server.go:143-158 | forwarding and teardown keep the invariant |
| `Session.InitialInv` | server.go:27 | the empty registry satisfies the invariant |
| `Session.Exchange` | server.go:121-161 | an undisturbed relay only appends writes and closes connections, and keeps the number of relays |
| `Session.ExchangeForwards` | server.go:121-161 | an undisturbed relay writes exactly the lines read before the first failure, verbatim and in order, to its own connection; a failure then closes that connection, removes the target only and ends the relay; other relays are unchanged and the relay keeps its connection and target; without a failure nothing else changes |
| `Session.Serve` | server.go:48-100 | the accept loop only appends writes, closes connections and starts relays |
| `Session.ServeStartsRelays` | server.go:48-100 | the accept loop keeps the relays already running and starts, in arrival order, exactly one relay `(conn, to)` per decoded record; it closes exactly the connections whose record failed to decode |
| `Session.ServeKeepsInv` | server.go:48-100 | the accept loop keeps the invariant |
| `Server.Broker.constructor` | server.go:27-31 | the broker starts with an empty registry, no writes, nothing closed and no relays |
| `Server.Broker.Handshake` | server.go:58-99 | updates the fields in place exactly as `Session.Handshake`, keeping the invariant |
| `Server.Broker.Serve` | server.go:48-100 | the accept loop leaves the state `Session.Serve` of the old state |
| `Server.Broker.Poll` | server.go:126-140 | updates the relay exactly as `Session.Poll` |
| `Server.Broker.Deliver` | server.go:143-158 | forwards or tears down exactly as `Session.Deliver`, with a read from a closed connection failing |
| `Server.Broker.ExchangeMessages` | server.go:121-161 | the relay loop leaves the state `Session.Exchange` of the old state |
| `Client.BuildHandshake` | client.go:46-49 | the record has exactly the keys `name` and `to`, holding the two input lines verbatim |
| `Client.Start` | client.go:28-55 | a record is sent iff both terminal reads succeed, and it holds the two lines with their `'\n'` |
| `Client.EndsWait` | client.go:77-89 | a wait read ends the wait iff it had no non-EOF error and its bytes are exactly `"online"` |
| `Client.WaitForOnline` | client.go:74-90 | the wait loop leaves at the first read that was not a non-EOF error and delivered exactly `"online"`, and it never leaves if there is no such read |
| `Client.AwaitOutcome` | client.go:58-91 | the client enters the conversation without further reads iff the first response is not exactly `"offline"`; it never counts more wait reads than were made |
| `Client.AwaitPeer` | client.go:58-91 | the presence exchange as written ends in the phase `Client.AwaitOutcome` describes |
| `Client.NotOfflineEntersAtOnce` | client.go:60-72 | a first response other than exactly `"offline"` (`"online"`, empty after EOF or error, anything else) enters the conversation without further reads |
| `Client.OfflineWaitsForOnline` | client.go:72-91 | after `"offline"` the client enters the conversation iff some later read ends the wait, and it does so at the first such read |
| `Client.FailedReadsKeepWaiting` | client.go:77-83 | non-EOF read errors never end the wait, whatever bytes came with them |
| `Client.SendMessages` | client.go:113-127 | the connection receives exactly the typed lines before the first failed terminal read, verbatim and in order |
| `Client.ReceiveMessages` | client.go:129-144 | the lines before the first failed read are shown; the connection is closed iff a read failed; `wg.Done` then runs once, so the wait group counter reaches 0 |
| `Scenario.RecordRoundTrip` | client.go:46-52 | the broker's field lookups on the decoded record return the client's two lines |
| `Scenario.BothEnterConversation` | server.go:72-96 | alice gets `"offline"`; bob's handshake sends `"online"` to bob and to alice; both clients enter the conversation |
| `Scenario.ConversationAndTeardown` | server.go:121-161 | bob's `"hi\n"` reaches alice verbatim through alice's relay; after alice disconnects, bob's relay closes bob's connection and removes only alice; alice's relay then reads from bob's closed connection, fails, and the registry ends up empty with both connections closed |

## Left out

- TCP listen, accept and dial, and `RemoteAddr`. Connections and addresses are opaque numbers. An `Accept` failure ends the accept loop, modelled as the end of the arrival sequence.
- Process exit. An `Accept` failure returns from `main` (server.go:52-55), which ends the whole broker, relays included. The model still allows `Poll` and `Deliver` steps after `Serve`; they describe a broker whose accept loop is still running.
- Goroutines and `sync.RWMutex`. Every locked block is one atomic step. `Session.Poll` merges the two locked blocks at server.go:128-130 and 138-140. If the target were deleted between them, `ReadBytes` would call `Read` on a nil connection. That panics and crashes the whole broker. The model has no crash state and does not include that window.
- `Session.Handshake` performs the presence writes (made after the unlock) in the same step as the insert and the lookup. A relay's write to the peer's connection cannot slip between them in the model.
- The spin-wait at server.go:126-136 is an enabling precondition of `Session.Poll`, not a loop. The model has no step for a poll that finds the target absent, because such a poll changes nothing.
- `Session.Exchange` and `Server.Broker.ExchangeMessages` run one relay with no other event interleaved. Interleaved runs are sequences of `Handshake`, `Poll` and `Deliver` steps.
- `encoding/json`. The broker's handshake takes the outcome of `json.Unmarshal` as an input. The client's record is stated as a map, not as marshalled bytes.
- Scenario.RecordRoundTrip: states the field lookups on the record as decoded, not the byte path. In the code the client sends `json.Marshal(data)` in one `Write`, and the broker decodes the bytes of a single 8192-byte `Read`. A record longer than 8192 bytes, or one split across reads, fails to decode, and the broker then closes the connection (server.go:63-68). `json.Marshal` also replaces invalid UTF-8 with U+FFFD, so such an identity does not come back unchanged.
- `bufio.NewReader` being recreated on every read, which can drop buffered bytes. One line read yields one line. One broker `Write` reaches the client as one `conn.Read`; TCP coalescing of `"offline"` and `"online"` into one read is not modelled.
- `Session.Deliver`: the line or failure is an input. Apart from a closed connection always failing, the model does not tie it to the bytes the peer wrote on connection `from`, because the transport is not modelled.
- Terminal prompts, `fmt` printing, error messages and `os.Exit`. `Client.ReceiveMessages` returns the messages it would print, without the tab prefix.
- `sync.WaitGroup` is modelled only as its counter in `Client.ReceiveMessages`. `wg.Wait` blocking `main` is not modelled.
- The client's wait loop after EOF keeps reading forever. The model runs over a finite sequence of reads and reports `Waiting` when they run out.
- Eviction on reconnect, deleting the local identity on teardown, a condition-variable wait and admission control. These are possible hardenings; none of them is in the code.
