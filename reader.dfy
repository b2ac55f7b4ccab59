/**
 * The per-connection reader, `client_handler` (src/bin/server.rs:90-146;
 * src/main.rs:100-156 is the same code).
 *
 * The socket is abstracted as the sequence of outcomes its reads return:
 * some bytes (at most a buffer's worth, as `Read::read` promises), the end of
 * the stream (a read of 0 bytes), or an error. After a successful read the
 * reader flushes the stream, which may fail; that outcome is part of the read.
 * The reader is a deterministic translation of this sequence into the events
 * it sends to the router. If the outcomes run out before the reader stops, the
 * reader is still blocked in its next read.
 */
module Reader {
  import opened Text
  import opened Channel

  datatype Flush = Flushed | FlushFailed(text: Bytes)

  datatype ReadOutcome =
    | Received(bytes: Bytes, flush: Flush)  // `Ok(n)` with n > 0, then the flush's result
    | EndOfStream                           // `Ok(0)`
    | ReadError(text: Bytes)                // `Err(err)`, with `err.to_string()`'s bytes

  /** How the reader stands after the outcomes it was given. */
  datatype Exit =
    | Blocked              // still in its loop, waiting for the next read
    | Finished             // returned `Ok(())` after the end of the stream
    | Aborted(text: Bytes) // returned the flush error through `?`

  datatype Trace = Trace(events: seq<ChannelMessage>, exit: Exit)

  /** A successful read returns between 1 and `MESSAGE_SIZE` bytes. */
  predicate WellFormedRead(r: ReadOutcome) {
    r.Received? ==> 0 < |r.bytes| <= MESSAGE_SIZE
  }

  predicate WellFormedReads(outcomes: seq<ReadOutcome>) {
    forall i :: 0 <= i < |outcomes| ==> WellFormedRead(outcomes[i])
  }

  /** The whole 32-byte buffer after a read of `bytes` into a zeroed buffer. */
  function Pad(bytes: Bytes): (r: Bytes)
    requires |bytes| <= MESSAGE_SIZE
    ensures |r| == MESSAGE_SIZE && r[..|bytes|] == bytes
    ensures forall j :: |bytes| <= j < MESSAGE_SIZE ==> r[j] == 0
  {
    bytes + Zeros(MESSAGE_SIZE - |bytes|)
  }

  /** The zero padding neither makes a chunk decodable nor stops it from being decodable. */
  lemma PadKeepsValidity(bytes: Bytes)
    requires |bytes| <= MESSAGE_SIZE
    ensures ValidUtf8(Pad(bytes)) <==> ValidUtf8(bytes)
  {
    ZeroPaddingKeepsValidity(bytes, MESSAGE_SIZE - |bytes|);
  }

  /** The one event a single read outcome makes the reader send. */
  function EventFor(address: Addr, r: ReadOutcome): ChannelMessage
    requires WellFormedRead(r)
  {
    match r
    case Received(bytes, _) => NewChannelMessage(address, Pad(bytes), IncomingMessage)
    case EndOfStream => NewChannelMessage(address, [], Disconnected)
    case ReadError(text) => NewChannelMessage(address, text, ErrorMessage)
  }

  /** The outcomes after which the reader leaves its loop. */
  predicate Stops(r: ReadOutcome) {
    r.EndOfStream? || (r.Received? && r.flush.FlushFailed?)
  }

  function ExitAfter(r: ReadOutcome): Exit
    requires Stops(r)
  {
    if r.EndOfStream? then Finished else Aborted(r.flush.text)
  }

  /** What the reader's loop does with the read outcomes, one read at a time. */
  function HandlerLoop(address: Addr, outcomes: seq<ReadOutcome>): Trace
    requires WellFormedReads(outcomes)
    decreases |outcomes|
  {
    if outcomes == [] then Trace([], Blocked)
    else
      var event := EventFor(address, outcomes[0]);
      if Stops(outcomes[0]) then Trace([event], ExitAfter(outcomes[0]))
      else
        var rest := HandlerLoop(address, outcomes[1..]);
        Trace([event] + rest.events, rest.exit)
  }

  /** `client_handler`: announce the connection, then run the loop. */
  function ClientHandlerSpec(address: Addr, outcomes: seq<ReadOutcome>): Trace
    requires WellFormedReads(outcomes)
  {
    var run := HandlerLoop(address, outcomes);
    Trace([NewChannelMessage(address, [], Connected)] + run.events, run.exit)
  }

  /**
   * The reader's loop, stated without recursion: it consumes a prefix of the
   * outcomes, sends exactly one event per consumed outcome, stops at the first
   * end of stream or failed flush, and is otherwise still blocked once every
   * outcome is consumed.
   */
  lemma {:induction false} HandlerLoopCharacterised(address: Addr, outcomes: seq<ReadOutcome>)
    requires WellFormedReads(outcomes)
    ensures var t := HandlerLoop(address, outcomes);
      && |t.events| <= |outcomes|
      && (forall k :: 0 <= k < |t.events| ==> t.events[k] == EventFor(address, outcomes[k]))
      && (forall k :: 0 <= k < |t.events| - 1 ==> !Stops(outcomes[k]))
      && (t.exit == Blocked ==> |t.events| == |outcomes| && forall k :: 0 <= k < |outcomes| ==> !Stops(outcomes[k]))
      && (t.exit != Blocked ==> |t.events| > 0 && Stops(outcomes[|t.events| - 1]) && t.exit == ExitAfter(outcomes[|t.events| - 1]))
    decreases |outcomes|
  {
    if outcomes != [] && !Stops(outcomes[0]) {
      var rest := outcomes[1..];
      assert WellFormedReads(rest) by {
        forall k | 0 <= k < |rest| ensures WellFormedRead(rest[k]) {
          assert rest[k] == outcomes[k + 1];
        }
      }
      HandlerLoopCharacterised(address, rest);
      var t := HandlerLoop(address, outcomes);
      var r := HandlerLoop(address, rest);
      assert t.events == [EventFor(address, outcomes[0])] + r.events;
      forall k | 0 < k < |t.events|
        ensures t.events[k] == EventFor(address, outcomes[k])
      {
        assert t.events[k] == r.events[k - 1] && rest[k - 1] == outcomes[k];
      }
      forall k | 0 < k < |outcomes| ensures t.exit == Blocked ==> !Stops(outcomes[k]) {
        assert rest[k - 1] == outcomes[k];
      }
    }
  }

  /**
   * The events of one reader: `Connected` first and only first; every event
   * carries the reader's address; each non-empty read gives an
   * `IncomingMessage` of exactly `MESSAGE_SIZE` bytes, the bytes read followed
   * by zeros; each read error gives an `ErrorMessage` with the error's text;
   * `Disconnected` comes only last, and exactly when the reader finished at
   * the end of the stream (so never after a failed flush).
   */
  lemma ReaderEvents(address: Addr, outcomes: seq<ReadOutcome>)
    requires WellFormedReads(outcomes)
    ensures var t := ClientHandlerSpec(address, outcomes);
      && 0 < |t.events| <= |outcomes| + 1
      && t.events[0] == ChannelMessage(address, Connected, [])
      && (forall k :: 0 <= k < |t.events| ==> t.events[k].address == address)
      && (forall k :: 0 < k < |t.events| ==> !t.events[k].kind.Connected?)
      && (forall k :: 0 < k < |t.events| && t.events[k].kind.IncomingMessage? ==>
            && outcomes[k - 1].Received?
            && |t.events[k].content| == MESSAGE_SIZE
            && t.events[k].content[..|outcomes[k - 1].bytes|] == outcomes[k - 1].bytes
            && forall j :: |outcomes[k - 1].bytes| <= j < MESSAGE_SIZE ==> t.events[k].content[j] == 0)
      && (forall k :: 0 < k < |t.events| && t.events[k].kind.ErrorMessage? ==>
            outcomes[k - 1] == ReadError(t.events[k].content))
      && (forall k :: 0 <= k < |t.events| && t.events[k].kind.Disconnected? ==>
            k == |t.events| - 1 && t.exit == Finished)
      && (t.exit == Finished ==> t.events[|t.events| - 1].kind.Disconnected?)
  {
    HandlerLoopCharacterised(address, outcomes);
    var t := ClientHandlerSpec(address, outcomes);
    var loop := HandlerLoop(address, outcomes);
    assert forall k :: 0 < k < |t.events| ==> t.events[k] == loop.events[k - 1];
  }

  /** The shape of what one reader sends: `Connected` first, nothing after `Disconnected`. */
  predicate ReaderShaped(p: seq<ChannelMessage>) {
    p == [] ||
    (p[0].kind.Connected? &&
     forall i :: 0 < i < |p| ==> !p[i].kind.Connected? && (p[i].kind.Disconnected? ==> i == |p| - 1))
  }

  /** Every reader's output, and every part of it the router has received so far, has that shape. */
  lemma ReaderOutputShaped(address: Addr, outcomes: seq<ReadOutcome>, n: nat)
    requires WellFormedReads(outcomes)
    requires n <= |ClientHandlerSpec(address, outcomes).events|
    ensures ReaderShaped(ClientHandlerSpec(address, outcomes).events[..n])
  {
    ReaderEvents(address, outcomes);
  }

  /**
   * What one address sends over its whole life: one reader's output per
   * connection, each connection but the last closed by `Disconnected`. A
   * peer can reconnect from the same address only once its old socket is
   * closed, and the registry entry holds that socket open until the router
   * has handled the old reader's `Disconnected`, so a `Connected` comes
   * first and otherwise exactly after a `Disconnected`.
   */
  predicate Sessions(p: seq<ChannelMessage>) {
    p == [] ||
    (p[0].kind.Connected? &&
     forall i :: 0 < i < |p| ==> (p[i].kind.Connected? <==> p[i - 1].kind.Disconnected?))
  }

  /** A new reader's output, after connections that have all been closed, extends the series. */
  lemma SessionsExtend(p: seq<ChannelMessage>, q: seq<ChannelMessage>)
    requires Sessions(p) && (p == [] || p[|p| - 1].kind.Disconnected?)
    requires ReaderShaped(q)
    ensures Sessions(p + q)
  {
    var r := p + q;
    if p == [] {
      assert r == q;
    } else if q != [] {
      forall i | 0 < i < |r| ensures r[i].kind.Connected? <==> r[i - 1].kind.Disconnected? {
        if i < |p| {
          assert r[i] == p[i] && r[i - 1] == p[i - 1];
        } else if i == |p| {
          assert r[i] == q[0] && r[i - 1] == p[|p| - 1];
        } else {
          assert r[i] == q[i - |p|] && r[i - 1] == q[i - 1 - |p|];
        }
      }
    } else {
      assert r == p;
    }
  }

  /** `buffer.fill(v)`. */
  method Fill(buffer: array<byte>, v: byte)
    modifies buffer
    ensures forall j :: 0 <= j < buffer.Length ==> buffer[j] == v
  {
    var j := 0;
    while j < buffer.Length
      invariant 0 <= j <= buffer.Length
      invariant forall i :: 0 <= i < j ==> buffer[i] == v
    {
      buffer[j] := v;
      j := j + 1;
    }
  }

  /** A read of `bytes` into `buffer`: it overwrites the front and leaves the rest. */
  method ReadInto(buffer: array<byte>, bytes: Bytes)
    requires |bytes| <= buffer.Length
    modifies buffer
    ensures buffer[..] == bytes + old(buffer[|bytes|..])
  {
    var j := 0;
    while j < |bytes|
      invariant 0 <= j <= |bytes|
      invariant buffer[..j] == bytes[..j]
      invariant buffer[j..] == old(buffer[j..])
    {
      buffer[j] := bytes[j];
      j := j + 1;
      assert buffer[..j] == buffer[..j - 1] + [bytes[j - 1]];
      assert bytes[..j] == bytes[..j - 1] + [bytes[j - 1]];
    }
    assert buffer[..] == buffer[..j] + buffer[j..];
  }

  /**
   * `client_handler`, over a 32-byte buffer that is zero before every read:
   * it sends exactly the events of `ClientHandlerSpec` and ends as it says.
   */
  method ClientHandler(address: Addr, outcomes: seq<ReadOutcome>) returns (events: seq<ChannelMessage>, exit: Exit)
    requires WellFormedReads(outcomes)
    ensures Trace(events, exit) == ClientHandlerSpec(address, outcomes)
  {
    var buffer := new byte[MESSAGE_SIZE];
    Fill(buffer, 0);
    events := [NewChannelMessage(address, [], Connected)];
    var i := 0;
    while i < |outcomes|
      invariant 0 <= i <= |outcomes|
      invariant buffer.Length == MESSAGE_SIZE
      invariant forall j :: 0 <= j < MESSAGE_SIZE ==> buffer[j] == 0
      invariant WellFormedReads(outcomes[i..])
      invariant var rest := HandlerLoop(address, outcomes[i..]);
        Trace(events + rest.events, rest.exit) == ClientHandlerSpec(address, outcomes)
    {
      var r := outcomes[i];
      assert outcomes[i..][0] == r && outcomes[i..][1..] == outcomes[i + 1..];
      match r {
        case EndOfStream =>
          events := events + [NewChannelMessage(address, [], Disconnected)];
          exit := Finished;
          return;
        case Received(bytes, flush) =>
          ReadInto(buffer, bytes);
          assert buffer[..] == Pad(bytes);
          events := events + [NewChannelMessage(address, buffer[..], IncomingMessage)];
          if flush.FlushFailed? {
            exit := Aborted(flush.text);
            return;
          }
          Fill(buffer, 0);
        case ReadError(text) =>
          events := events + [NewChannelMessage(address, text, ErrorMessage)];
      }
      i := i + 1;
    }
    exit := Blocked;
  }
}
