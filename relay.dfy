/**
 * The two pumps of onWebSocket in internal/meshrouter/meshrouter.go, each a
 * sequential loop over what its source connection delivers. A read is given
 * as a value together with how the write it causes ends; the pumps return
 * the writes that succeeded, in order.
 */
module Relay {
  import Base64

  type byte = Base64.byte

  /** The size of the TCP read buffer. */
  const BufferSize: nat := 4096

  /** The bytes of a list of chunks, in order. */
  function Concat(chunks: seq<seq<byte>>): (bytes: seq<byte>)
    ensures |chunks| == 0 ==> bytes == []
  {
    if chunks == [] then [] else chunks[0] + Concat(chunks[1..])
  }

  lemma {:induction false} ConcatAppend(a: seq<seq<byte>>, b: seq<seq<byte>>)
    ensures Concat(a + b) == Concat(a) + Concat(b)
  {
    if a == [] {
      assert a + b == b;
    } else {
      assert (a + b)[1..] == a[1..] + b;
      ConcatAppend(a[1..], b);
    }
  }

  /** How a pump ended, or that it is still waiting for its source. */
  datatype PumpStop =
    | Waiting                    // every read was handled; the loop blocks on the next one
    | SourceClosed(clean: bool)  // the read failed; `clean` for a normal close or EOF
    | WriteFailed                // writing to the other side failed

  datatype PumpRun = PumpRun(writes: seq<seq<byte>>, stop: PumpStop, consumed: nat)

  // ---------------------------------------------------------------------
  // WebSocket to TCP
  // ---------------------------------------------------------------------

  /** One `ReadMessage` on the tunnel WebSocket. */
  datatype WsRead =
    | Received(binary: bool, payload: seq<byte>, writeFails: bool) // `writeFails`: the TCP write of this payload fails
    | WsReadFailed(closeError: bool)                               // `closeError`: normal closure, going away or no status

  /** Only binary messages that carry at least one byte are written to TCP. */
  predicate Forwarded(m: WsRead) {
    m.Received? && m.binary && |m.payload| > 0
  }

  /** The payloads of the forwarded messages among `input`, in order. */
  function ForwardedPayloads(input: seq<WsRead>): (ps: seq<seq<byte>>)
    ensures forall k :: 0 <= k < |ps| ==> |ps[k]| > 0
    ensures |ps| <= |input|
  {
    if input == [] then []
    else (if Forwarded(input[0]) then [input[0].payload] else []) + ForwardedPayloads(input[1..])
  }

  /** The WebSocket-to-TCP pump over the messages it is given. */
  function WsToTcpRun(input: seq<WsRead>): (r: PumpRun)
    ensures r.consumed <= |input|
  {
    if input == [] then PumpRun([], Waiting, 0)
    else
      match input[0]
      case WsReadFailed(closeError) => PumpRun([], SourceClosed(closeError), 1)
      case Received(binary, payload, writeFails) =>
        if Forwarded(input[0]) && writeFails then PumpRun([], WriteFailed, 1)
        else
          var rest := WsToTcpRun(input[1..]);
          PumpRun((if Forwarded(input[0]) then [payload] else []) + rest.writes, rest.stop, rest.consumed + 1)
  }

  /**
   * The pump writes exactly the forwarded payloads of the messages it handled,
   * except the one whose write failed; it stops at a failed read or at a
   * forwarded message whose write fails.
   */
  lemma {:induction false} WsToTcpWrites(input: seq<WsRead>)
    ensures var r := WsToTcpRun(input);
      (r.stop == Waiting ==> r.consumed == |input| && r.writes == ForwardedPayloads(input)) &&
      (r.stop.SourceClosed? ==>
        r.consumed > 0 && input[r.consumed - 1] == WsReadFailed(r.stop.clean) &&
        r.writes == ForwardedPayloads(input[..r.consumed - 1])) &&
      (r.stop == WriteFailed ==>
        r.consumed > 0 && Forwarded(input[r.consumed - 1]) && input[r.consumed - 1].writeFails &&
        r.writes == ForwardedPayloads(input[..r.consumed - 1]))
  {
    if input != [] && input[0].Received? && !(Forwarded(input[0]) && input[0].writeFails) {
      var r, rest := WsToTcpRun(input), WsToTcpRun(input[1..]);
      WsToTcpWrites(input[1..]);
      if rest.stop != Waiting {
        var k := rest.consumed - 1;
        assert input[..r.consumed - 1] == [input[0]] + input[1..][..k];
        assert input[r.consumed - 1] == input[1..][k];
      }
    } else if input != [] {
      assert input[..0] == [];
    }
  }

  /** Every message before the one the pump stopped at was received and, if forwarded, written. */
  lemma {:induction false} WsToTcpGoesOn(input: seq<WsRead>)
    ensures var r := WsToTcpRun(input);
      forall j :: 0 <= j < r.consumed - 1 ==> input[j].Received? && !(Forwarded(input[j]) && input[j].writeFails)
  {
    if input != [] && input[0].Received? && !(Forwarded(input[0]) && input[0].writeFails) {
      var r, rest := WsToTcpRun(input), WsToTcpRun(input[1..]);
      WsToTcpGoesOn(input[1..]);
      forall j | 0 <= j < r.consumed - 1
        ensures input[j].Received? && !(Forwarded(input[j]) && input[j].writeFails)
      {
        if j > 0 {
          assert input[j] == input[1..][j - 1];
        }
      }
    }
  }

  /** The bytes carried by the binary messages among `input`, empty ones included. */
  function BinaryData(input: seq<WsRead>): seq<byte> {
    if input == [] then []
    else (if input[0].Received? && input[0].binary then input[0].payload else []) + BinaryData(input[1..])
  }

  /** Skipping empty binary frames loses no bytes, and text messages contribute none. */
  lemma {:induction false} ForwardedBytes(input: seq<WsRead>)
    ensures Concat(ForwardedPayloads(input)) == BinaryData(input)
  {
    if input != [] {
      ForwardedBytes(input[1..]);
      var head := if Forwarded(input[0]) then [input[0].payload] else [];
      ConcatAppend(head, ForwardedPayloads(input[1..]));
      if Forwarded(input[0]) {
        assert Concat(head) == input[0].payload + Concat([]);
      } else {
        assert input[0].Received? && input[0].binary ==> input[0].payload == [];
      }
    }
  }

  /** A pump that handled every message has written exactly the bytes of the binary messages. */
  lemma WsToTcpStream(input: seq<WsRead>)
    ensures var r := WsToTcpRun(input);
      r.stop == Waiting ==> Concat(r.writes) == BinaryData(input)
  {
    WsToTcpWrites(input);
    ForwardedBytes(input);
  }

  /** The WebSocket-to-TCP goroutine of onWebSocket. */
  method WsToTcp(input: seq<WsRead>) returns (writes: seq<seq<byte>>, stop: PumpStop, consumed: nat)
    ensures PumpRun(writes, stop, consumed) == WsToTcpRun(input)
  {
    writes := [];
    var i := 0;
    while i < |input|
      invariant 0 <= i <= |input|
      invariant var r := WsToTcpRun(input[i..]);
        WsToTcpRun(input) == PumpRun(writes + r.writes, r.stop, i + r.consumed)
    {
      assert input[i..][0] == input[i] && input[i..][1..] == input[i + 1..];
      match input[i] {
        case WsReadFailed(closeError) =>
          assert writes + [] == writes;
          return writes, SourceClosed(closeError), i + 1;
        case Received(binary, payload, writeFails) =>
          if binary && |payload| > 0 {
            if writeFails {
              assert writes + [] == writes;
              return writes, WriteFailed, i + 1;
            }
            assert writes + ([payload] + WsToTcpRun(input[i + 1..]).writes) == (writes + [payload]) + WsToTcpRun(input[i + 1..]).writes;
            writes := writes + [payload];
          } else {
            assert [] + WsToTcpRun(input[i + 1..]).writes == WsToTcpRun(input[i + 1..]).writes;
          }
      }
      i := i + 1;
    }
    assert writes + [] == writes;
    return writes, Waiting, |input|;
  }

  // ---------------------------------------------------------------------
  // TCP to WebSocket
  // ---------------------------------------------------------------------

  /** One `Read` into the 4096-byte buffer. */
  datatype TcpRead =
    | Got(data: seq<byte>, writeFails: bool) // `writeFails`: sending these bytes as a binary message fails
    | TcpReadFailed(eof: bool)

  /** What `Read` may deliver into the buffer: at most its length. */
  predicate FitsBuffer(input: seq<TcpRead>) {
    forall j :: 0 <= j < |input| && input[j].Got? ==> |input[j].data| <= BufferSize
  }

  /** The data of the non-empty reads among `input`, in order: one binary message each. */
  function ReadChunks(input: seq<TcpRead>): (cs: seq<seq<byte>>)
    ensures forall k :: 0 <= k < |cs| ==> |cs[k]| > 0
  {
    if input == [] then []
    else (if input[0].Got? && |input[0].data| > 0 then [input[0].data] else []) + ReadChunks(input[1..])
  }

  /** The TCP-to-WebSocket pump over the reads it is given. */
  function TcpToWsRun(input: seq<TcpRead>): (r: PumpRun)
    ensures r.consumed <= |input|
  {
    if input == [] then PumpRun([], Waiting, 0)
    else
      match input[0]
      case TcpReadFailed(eof) => PumpRun([], SourceClosed(eof), 1)
      case Got(data, writeFails) =>
        if |data| > 0 && writeFails then PumpRun([], WriteFailed, 1)
        else
          var rest := TcpToWsRun(input[1..]);
          PumpRun((if |data| > 0 then [data] else []) + rest.writes, rest.stop, rest.consumed + 1)
  }

  /** The reads after the first fit the buffer too, and so does the first. */
  lemma FitsBufferTail(input: seq<TcpRead>)
    requires input != [] && FitsBuffer(input)
    ensures FitsBuffer(input[1..])
    ensures input[0].Got? ==> |input[0].data| <= BufferSize
  {
    assert input[0] == input[0 + 0];
    forall j | 0 <= j < |input[1..]| && input[1..][j].Got?
      ensures |input[1..][j].data| <= BufferSize
    {
      assert input[1..][j] == input[j + 1];
    }
  }

  /** Every message the pump sends holds between 1 and 4096 bytes. */
  lemma {:induction false} TcpToWsSizes(input: seq<TcpRead>)
    requires FitsBuffer(input)
    ensures var r := TcpToWsRun(input);
      forall k :: 0 <= k < |r.writes| ==> 0 < |r.writes[k]| <= BufferSize
  {
    if input != [] && input[0].Got? && !(|input[0].data| > 0 && input[0].writeFails) {
      FitsBufferTail(input);
      TcpToWsSizes(input[1..]);
      assert var r1 := TcpToWsRun(input[1..]); forall k :: 0 <= k < |r1.writes| ==> 0 < |r1.writes[k]| <= BufferSize;
      var head := if |input[0].data| > 0 then [input[0].data] else [];
      var rest := TcpToWsRun(input[1..]).writes;
      assert forall k :: 0 <= k < |rest| ==> 0 < |rest[k]| <= BufferSize;
      assert TcpToWsRun(input).writes == head + rest;
      forall k | 0 <= k < |head + rest|
        ensures 0 < |(head + rest)[k]| <= BufferSize
      {
        if k >= |head| {
          assert (head + rest)[k] == rest[k - |head|];
        } else {
          assert (head + rest)[k] == input[0].data;
        }
      }
    }
  }

  /**
   * The messages the pump sends are the bytes of the non-empty reads up to
   * where it stopped; a failed write stops it at a non-empty read.
   */
  lemma {:induction false} TcpToWsChunks(input: seq<TcpRead>)
    ensures var r := TcpToWsRun(input);
      r.stop.Waiting? ==> r.consumed == |input| && r.writes == ReadChunks(input)
    ensures var r := TcpToWsRun(input);
      !r.stop.Waiting? ==> 0 < r.consumed && r.writes == ReadChunks(input[..r.consumed - 1])
    ensures var r := TcpToWsRun(input);
      r.stop == WriteFailed ==> input[r.consumed - 1].Got? && |input[r.consumed - 1].data| > 0
  {
    if input != [] && input[0].Got? && !(|input[0].data| > 0 && input[0].writeFails) {
      var r, rest := TcpToWsRun(input), TcpToWsRun(input[1..]);
      TcpToWsChunks(input[1..]);
      if !rest.stop.Waiting? {
        assert input[..r.consumed - 1] == [input[0]] + input[1..][..rest.consumed - 1];
        assert input[r.consumed - 1] == input[1..][rest.consumed - 1];
      }
    } else if input != [] {
      assert input[..0] == [];
    }
  }

  /** The TCP-to-WebSocket goroutine of onWebSocket. */
  method TcpToWs(input: seq<TcpRead>) returns (messages: seq<seq<byte>>, stop: PumpStop, consumed: nat)
    requires FitsBuffer(input)
    ensures PumpRun(messages, stop, consumed) == TcpToWsRun(input)
    ensures forall k :: 0 <= k < |messages| ==> 0 < |messages[k]| <= BufferSize
  {
    messages := [];
    var i := 0;
    while i < |input|
      invariant 0 <= i <= |input|
      invariant var r := TcpToWsRun(input[i..]);
        TcpToWsRun(input) == PumpRun(messages + r.writes, r.stop, i + r.consumed)
    {
      assert input[i..][0] == input[i] && input[i..][1..] == input[i + 1..];
      match input[i] {
        case TcpReadFailed(eof) =>
          assert messages + [] == messages;
          TcpToWsSizes(input);
          return messages, SourceClosed(eof), i + 1;
        case Got(data, writeFails) =>
          if |data| > 0 {
            if writeFails {
              assert messages + [] == messages;
              TcpToWsSizes(input);
              return messages, WriteFailed, i + 1;
            }
            assert messages + ([data] + TcpToWsRun(input[i + 1..]).writes) == (messages + [data]) + TcpToWsRun(input[i + 1..]).writes;
            messages := messages + [data];
          } else {
            assert [] + TcpToWsRun(input[i + 1..]).writes == TcpToWsRun(input[i + 1..]).writes;
          }
      }
      i := i + 1;
    }
    assert messages + [] == messages;
    TcpToWsSizes(input);
    return messages, Waiting, |input|;
  }
}
