/**
 Types and helpers shared by the broker (server.go) and the client (client.go).
 */
module Common {

  datatype Option<+T> = None | Some(value: T)

  /** A byte string. Go's `string([]byte)` copies the bytes unchanged, so identities,
      presence tokens and relayed lines are all one kind of value here. */
  type Bytes = string

  /** Opaque handle of one accepted or dialled TCP connection (a `net.Conn`). */
  type ConnId = nat

  /** Opaque remote address of a connection (a `net.Addr`). */
  type Addr = nat

  /** Length of the scratch buffer both programs hand to a single `conn.Read`. */
  const BufferSize: nat := 8192

  /** The two presence tokens the broker writes, without framing. */
  const Online: Bytes := "online"
  const Offline: Bytes := "offline"

  /** The error reported by one read: none, `io.EOF`, or any other error. */
  datatype ReadErr = NoError | EOF | Failed

  /** What one `conn.Read(tmp)` sees: the bytes the transport has ready (at most
      `BufferSize` of them land in `tmp`) and the error reported with them. */
  datatype ReadResult = ReadResult(data: Bytes, err: ReadErr)

  /** What one `bufio.Reader.ReadBytes('\n')` or `ReadString('\n')` returns as used by
      its callers: a line with its delimiter, or an error (every caller drops the
      partial data that comes with an error). */
  datatype LineRead = Line(bytes: Bytes) | LineError

  function Min(a: nat, b: nat): nat
  {
    if a <= b then a else b
  }

  /** `tmp[:n]` after `n, err := conn.Read(tmp)` with `len(tmp) == BufferSize`. */
  function Received(r: ReadResult): (b: Bytes)
    ensures |b| == Min(|r.data|, BufferSize)
    ensures b <= r.data
  {
    r.data[..Min(|r.data|, BufferSize)]
  }

  /** The lines a read-until-error loop consumes: every line up to, and not
      including, the first failed read. */
  function LinesUntilError(results: seq<LineRead>): (lines: seq<Bytes>)
    ensures |lines| <= |results|
  {
    if results == [] then []
    else match results[0]
      case LineError => []
      case Line(b) => [b] + LinesUntilError(results[1..])
  }

  /** The lines consumed are exactly the reads before the first failure, in
      order; all reads are consumed exactly when none failed. */
  lemma {:induction false} LinesUntilErrorIsPrefix(results: seq<LineRead>)
    ensures var lines := LinesUntilError(results);
      && |lines| <= |results|
      && (forall j :: 0 <= j < |lines| ==> results[j] == Line(lines[j]))
      && (|lines| < |results| ==> results[|lines|] == LineError)
      && (|lines| == |results| <==> LineError !in results)
  {
    if results != [] && results[0].Line? {
      LinesUntilErrorIsPrefix(results[1..]);
      assert LineError in results <==> LineError in results[1..];
    }
  }

  /** One iteration of a read-until-error loop at position `i`. */
  lemma LinesUntilErrorAt(results: seq<LineRead>, i: nat)
    requires i < |results|
    ensures results[i].LineError? ==> LinesUntilError(results[i..]) == []
    ensures results[i].Line? ==>
      LinesUntilError(results[i..]) == [results[i].bytes] + LinesUntilError(results[i + 1..])
  {
  }
}
