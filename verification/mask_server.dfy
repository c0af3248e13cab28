/** The accept loop of the player's mask server (`_start_socket_server` in
    main.py) as pure functions: one connection's chunks are accumulated,
    decoded and pushed onto the intake queue. Sockets and the thread are
    not modelled: a connection is the sequence of values `conn.recv(1024)`
    returns, and the UTF-8 plus JSON decoding is the parameter `decode`. */
module MaskServer {
  import opened PyJson

  newtype byte = x: int | 0 <= x < 256

  /** `b''.join(chunks)`. */
  function Concat(chunks: seq<seq<byte>>): (r: seq<byte>)
    ensures |r| == 0 <==> forall i :: 0 <= i < |chunks| ==> |chunks[i]| == 0
  {
    if |chunks| == 0 then []
    else
      assert forall i :: 1 <= i < |chunks| ==> chunks[i] == chunks[1..][i - 1];
      chunks[0] + Concat(chunks[1..])
  }

  /** How reading one connection ends: the peer closed it (an empty chunk)
      after sending `data`, or it is still open and the server waits. */
  datatype Received = Closed(data: seq<byte>) | StillOpen

  /** The `recv` loop: bytes are appended until the first empty chunk. */
  function Receive(chunks: seq<seq<byte>>): (r: Received)
    ensures r.Closed? <==> exists i :: 0 <= i < |chunks| && |chunks[i]| == 0
  {
    if |chunks| == 0 then StillOpen
    else if |chunks[0]| == 0 then Closed([])
    else
      match Receive(chunks[1..])
      case StillOpen =>
        assert forall i :: 1 <= i < |chunks| ==> chunks[i] == chunks[1..][i - 1];
        StillOpen
      case Closed(rest) =>
        assert exists i :: 1 <= i < |chunks| && |chunks[i]| == 0 by {
          var i :| 0 <= i < |chunks[1..]| && |chunks[1..][i]| == 0;
          assert chunks[i + 1] == chunks[1..][i];
        }
        Closed(chunks[0] + rest)
  }

  /** The payload is the in-order concatenation of the chunks before the
      first empty one; anything after it is never read. */
  lemma {:induction false} ReceiveConcatenates(chunks: seq<seq<byte>>, rest: seq<seq<byte>>)
    requires forall i :: 0 <= i < |chunks| ==> |chunks[i]| > 0
    ensures Receive(chunks + [[]] + rest) == Closed(Concat(chunks))
  {
    if |chunks| > 0 {
      assert (chunks + [[]] + rest)[1..] == chunks[1..] + [[]] + rest;
      ReceiveConcatenates(chunks[1..], rest);
    } else {
      assert (chunks + [[]] + rest)[0] == [];
    }
  }

  /** What `data.decode('utf-8')` followed by `json.loads` gives. */
  datatype Decoded = Parsed(value: Json) | JsonDecodeError | UnicodeDecodeError

  /** The abstract decoder. */
  type Decoder = seq<byte> -> Decoded

  /** How handling one connection ends. */
  datatype StepOutcome =
    | Waiting          // the peer has not closed the connection
    | NothingReceived  // the peer closed without sending anything
    | Rejected         // the payload could not be decoded and was dropped
    | Enqueued         // the decoded value was pushed onto the queue
    | ServerThreadDied // an exception escaped the accept loop

  /** `len(shapes_data)` in the log line succeeds: strings, lists and
      dicts have a length, numbers, booleans and `None` do not. */
  predicate Sized(j: Json) {
    j.JStr? || j.JArr? || j.JObj?
  }

  /** The connections the written loop does not survive: the payload is
      not UTF-8, or it decodes to a value without a length. */
  predicate Fatal(chunks: seq<seq<byte>>, decode: Decoder) {
    && Receive(chunks).Closed? && |Receive(chunks).data| > 0
    && (|| decode(Receive(chunks).data).UnicodeDecodeError?
        || (decode(Receive(chunks).data).Parsed? && !Sized(decode(Receive(chunks).data).value)))
  }

  /** One connection handled as main.py:36-52 is written: only
      `JSONDecodeError` is caught, so a `UnicodeDecodeError` ends the
      thread, and so does the `TypeError` of `len()` on a scalar payload,
      which happens after it was enqueued. */
  function StepAsWritten(queue: seq<Json>, chunks: seq<seq<byte>>, decode: Decoder): (r: (seq<Json>, StepOutcome))
    ensures r.1 == Waiting <==> Receive(chunks).StillOpen?
    ensures r.1 == NothingReceived <==> Receive(chunks) == Closed([])
    // only a JSON syntax error is caught and dropped
    ensures r.1 == Rejected <==>
      Receive(chunks).Closed? && |Receive(chunks).data| > 0 && decode(Receive(chunks).data).JsonDecodeError?
    ensures r.1 == ServerThreadDied <==> Fatal(chunks, decode)
    ensures r.1 == Enqueued <==>
      Receive(chunks).Closed? && |Receive(chunks).data| > 0 &&
      decode(Receive(chunks).data).Parsed? && Sized(decode(Receive(chunks).data).value)
    // a decoded value is enqueued, even when logging it then kills the thread
    ensures r.0 == (if Receive(chunks).Closed? && |Receive(chunks).data| > 0 && decode(Receive(chunks).data).Parsed?
                    then queue + [decode(Receive(chunks).data).value] else queue)
  {
    match Receive(chunks)
    case StillOpen => (queue, Waiting)
    case Closed(data) =>
      if |data| == 0 then (queue, NothingReceived)
      else
        match decode(data)
        case JsonDecodeError => (queue, Rejected)
        case UnicodeDecodeError => (queue, ServerThreadDied)
        case Parsed(j) => (queue + [j], if Sized(j) then Enqueued else ServerThreadDied)
  }

  /** One connection handled as intended: a payload that cannot be decoded
      for any reason is dropped, every decoded value is enqueued exactly
      once, and the server keeps listening. */
  function Step(queue: seq<Json>, chunks: seq<seq<byte>>, decode: Decoder): (r: (seq<Json>, StepOutcome))
    ensures r.1 != ServerThreadDied
    ensures r.1 == Waiting <==> Receive(chunks).StillOpen?
    ensures r.1 == NothingReceived <==> Receive(chunks) == Closed([])
    ensures r.1 == Rejected <==>
      Receive(chunks).Closed? && |Receive(chunks).data| > 0 && !decode(Receive(chunks).data).Parsed?
    ensures r.1 == Enqueued <==>
      Receive(chunks).Closed? && |Receive(chunks).data| > 0 && decode(Receive(chunks).data).Parsed?
    ensures r.1 == Enqueued ==> r.0 == queue + [decode(Receive(chunks).data).value]
    ensures r.1 != Enqueued ==> r.0 == queue
  {
    match Receive(chunks)
    case StillOpen => (queue, Waiting)
    case Closed(data) =>
      if |data| == 0 then (queue, NothingReceived)
      else
        match decode(data)
        case Parsed(j) => (queue + [j], Enqueued)
        case _ => (queue, Rejected)
  }

  /** The two versions agree on every connection the written code survives. */
  lemma StepAgreesWhenSurvived(queue: seq<Json>, chunks: seq<seq<byte>>, decode: Decoder)
    requires StepAsWritten(queue, chunks, decode).1 != ServerThreadDied
    ensures Step(queue, chunks, decode) == StepAsWritten(queue, chunks, decode)
  {
  }

  /** Whether the accept loop is still serving after a run of connections. */
  datatype ServerState = Listening | Blocked | Dead

  /** The accept loop over successive connections, as written. It stops at
      a connection that never closes (the thread blocks in `recv`) and at
      an escaping exception. */
  function ServeAsWritten(queue: seq<Json>, conns: seq<seq<seq<byte>>>, decode: Decoder): (r: (seq<Json>, ServerState))
    ensures |queue| <= |r.0| && r.0[..|queue|] == queue
    decreases |conns|
  {
    if |conns| == 0 then (queue, Listening)
    else
      var (q', outcome) := StepAsWritten(queue, conns[0], decode);
      if outcome == Waiting then (q', Blocked)
      else if outcome == ServerThreadDied then (q', Dead)
      else
        var r := ServeAsWritten(q', conns[1..], decode);
        assert r.0[..|queue|] == r.0[..|q'|][..|queue|];
        r
  }

  /** The accept loop with the corrected step. */
  function Serve(queue: seq<Json>, conns: seq<seq<seq<byte>>>, decode: Decoder): (r: (seq<Json>, ServerState))
    ensures r.1 != Dead
    ensures |queue| <= |r.0| && r.0[..|queue|] == queue
    decreases |conns|
  {
    if |conns| == 0 then (queue, Listening)
    else
      var (q', outcome) := Step(queue, conns[0], decode);
      if outcome == Waiting then (q', Blocked)
      else
        var r := Serve(q', conns[1..], decode);
        assert r.0[..|queue|] == r.0[..|q'|][..|queue|];
        r
  }

  /** The corrected loop stops serving only when a peer never closes its
      connection. */
  lemma {:induction false} ServeBlocksOnlyOnOpen(queue: seq<Json>, conns: seq<seq<seq<byte>>>, decode: Decoder)
    ensures Serve(queue, conns, decode).1 == Blocked <==>
      exists i :: 0 <= i < |conns| && Receive(conns[i]).StillOpen?
    decreases |conns|
  {
    if |conns| > 0 && Receive(conns[0]).Closed? {
      var q' := Step(queue, conns[0], decode).0;
      ServeBlocksOnlyOnOpen(q', conns[1..], decode);
      assert Serve(queue, conns, decode) == Serve(q', conns[1..], decode);
      if exists i :: 0 <= i < |conns| && Receive(conns[i]).StillOpen? {
        var i :| 0 <= i < |conns| && Receive(conns[i]).StillOpen?;
        assert conns[1..][i - 1] == conns[i];
      }
      if exists i :: 0 <= i < |conns[1..]| && Receive(conns[1..][i]).StillOpen? {
        var i :| 0 <= i < |conns[1..]| && Receive(conns[1..][i]).StillOpen?;
        assert conns[i + 1] == conns[1..][i];
      }
    }
  }

  /** The values the corrected server enqueues for connections that all
      close: one per connection whose payload decodes, in arrival order. */
  function Decodable(conns: seq<seq<seq<byte>>>, decode: Decoder): seq<Json>
    requires forall i :: 0 <= i < |conns| ==> Receive(conns[i]).Closed?
  {
    if |conns| == 0 then []
    else
      var data := Receive(conns[0]).data;
      (if |data| > 0 && decode(data).Parsed? then [decode(data).value] else []) +
      Decodable(conns[1..], decode)
  }

  /** The intake queue is FIFO: after a run of closed connections the
      corrected server has appended exactly the decodable payloads, in the
      order the connections arrived, and is still listening. */
  lemma {:induction false} ServeEnqueuesInOrder(queue: seq<Json>, conns: seq<seq<seq<byte>>>, decode: Decoder)
    requires forall i :: 0 <= i < |conns| ==> Receive(conns[i]).Closed?
    ensures Serve(queue, conns, decode) == (queue + Decodable(conns, decode), Listening)
    decreases |conns|
  {
    if |conns| > 0 {
      var data := Receive(conns[0]).data;
      var head := if |data| > 0 && decode(data).Parsed? then [decode(data).value] else [];
      var q' := queue + head;
      assert Receive(conns[0]).Closed?;
      assert Step(queue, conns[0], decode).0 == q' by {
        if |head| == 0 {
          assert q' == queue;
        }
      }
      assert Step(queue, conns[0], decode).1 != Waiting;
      assert Serve(queue, conns, decode) == Serve(q', conns[1..], decode);
      assert forall i :: 0 <= i < |conns[1..]| ==> conns[1..][i] == conns[i + 1];
      ServeEnqueuesInOrder(q', conns[1..], decode);
      assert Decodable(conns, decode) == head + Decodable(conns[1..], decode);
      assert q' + Decodable(conns[1..], decode) == queue + Decodable(conns, decode);
    } else {
      assert queue + Decodable(conns, decode) == queue;
    }
  }

  /** The connection at which the written loop stops serving: the first
      one still open or fatal, or `|conns|` when it survives them all. */
  function FirstStop(conns: seq<seq<seq<byte>>>, decode: Decoder): (n: nat)
    ensures n <= |conns|
    ensures forall i :: 0 <= i < n ==> Receive(conns[i]).Closed? && !Fatal(conns[i], decode)
    ensures n < |conns| ==> Receive(conns[n]).StillOpen? || Fatal(conns[n], decode)
  {
    if |conns| == 0 then 0
    else if Receive(conns[0]).StillOpen? || Fatal(conns[0], decode) then 0
    else
      var n := 1 + FirstStop(conns[1..], decode);
      assert forall i :: 1 <= i < n ==> conns[i] == conns[1..][i - 1];
      n
  }

  /** What the fatal connection `chunks` enqueues before the thread dies:
      its value when it decoded, nothing when it was not UTF-8. */
  function EnqueuedBeforeDying(chunks: seq<seq<byte>>, decode: Decoder): seq<Json>
    requires Fatal(chunks, decode)
  {
    if decode(Receive(chunks).data).Parsed? then [decode(Receive(chunks).data).value] else []
  }

  /** How the written loop ends when it stops at connection `n` with queue
      `q`: still listening after the last connection, blocked at one still
      open, dead at a fatal one after what that one enqueued. */
  function AsWrittenEnd(q: seq<Json>, conns: seq<seq<seq<byte>>>, n: nat, decode: Decoder): (seq<Json>, ServerState)
    requires n <= |conns|
    requires n < |conns| ==> Receive(conns[n]).StillOpen? || Fatal(conns[n], decode)
  {
    if n == |conns| then (q, Listening)
    else if Receive(conns[n]).StillOpen? then (q, Blocked)
    else (q + EnqueuedBeforeDying(conns[n], decode), Dead)
  }

  /** The decodable payloads of the connections the written loop survives
      before it stops. */
  function SurvivedPayloads(conns: seq<seq<seq<byte>>>, decode: Decoder): (r: seq<Json>)
    ensures var n := FirstStop(conns, decode);
      forall i :: 0 <= i < |conns[..n]| ==> Receive(conns[..n][i]).Closed?
    ensures r == Decodable(conns[..FirstStop(conns, decode)], decode)
  {
    var n := FirstStop(conns, decode);
    if n == 0 then
      assert conns[..n] == [];
      []
    else
      var data := Receive(conns[0]).data;
      assert conns[..n][1..] == conns[1..][..n - 1];
      (if |data| > 0 && decode(data).Parsed? then [decode(data).value] else []) +
      SurvivedPayloads(conns[1..], decode)
  }

  /** The written loop at a connection it does not survive, or with none left. */
  lemma ServeAsWrittenStopsHere(queue: seq<Json>, conns: seq<seq<seq<byte>>>, decode: Decoder)
    requires |conns| == 0 || Receive(conns[0]).StillOpen? || Fatal(conns[0], decode)
    ensures ServeAsWritten(queue, conns, decode) == AsWrittenEnd(queue, conns, 0, decode)
  {
    if |conns| > 0 {
      var step := StepAsWritten(queue, conns[0], decode);
      if Receive(conns[0]).StillOpen? {
        assert step == (queue, Waiting);
      } else if decode(Receive(conns[0]).data).Parsed? {
        assert step == (queue + EnqueuedBeforeDying(conns[0], decode), ServerThreadDied);
      } else {
        assert step == (queue, ServerThreadDied);
        assert queue + EnqueuedBeforeDying(conns[0], decode) == queue;
      }
    }
  }

  /** The written loop past a connection it survives. */
  lemma ServeAsWrittenSurvivesFirst(queue: seq<Json>, conns: seq<seq<seq<byte>>>, decode: Decoder)
    requires |conns| > 0 && Receive(conns[0]).Closed? && !Fatal(conns[0], decode)
    ensures
      var data := Receive(conns[0]).data;
      ServeAsWritten(queue, conns, decode) ==
      ServeAsWritten(queue + (if |data| > 0 && decode(data).Parsed? then [decode(data).value] else []), conns[1..], decode)
  {
    var data := Receive(conns[0]).data;
    var step := StepAsWritten(queue, conns[0], decode);
    assert step.1 != Waiting && step.1 != ServerThreadDied;
    if !(|data| > 0 && decode(data).Parsed?) {
      assert step.0 == queue + [];
    }
  }

  /** `SurvivedPayloads` past a connection the loop survives: that
      connection's payload, then those of the rest. */
  lemma SurvivedShift(queue: seq<Json>, conns: seq<seq<seq<byte>>>, decode: Decoder)
    requires |conns| > 0 && Receive(conns[0]).Closed? && !Fatal(conns[0], decode)
    ensures
      var data := Receive(conns[0]).data;
      var head := if |data| > 0 && decode(data).Parsed? then [decode(data).value] else [];
      && FirstStop(conns, decode) == FirstStop(conns[1..], decode) + 1
      && queue + SurvivedPayloads(conns, decode) == (queue + head) + SurvivedPayloads(conns[1..], decode)
  {
    var data := Receive(conns[0]).data;
    var head := if |data| > 0 && decode(data).Parsed? then [decode(data).value] else [];
    var rest := SurvivedPayloads(conns[1..], decode);
    assert SurvivedPayloads(conns, decode) == head + rest;
    AppendAssociates(queue, head, rest);
  }

  lemma AppendAssociates<T>(a: seq<T>, b: seq<T>, c: seq<T>)
    ensures a + (b + c) == (a + b) + c
  {
  }

  /** `AsWrittenEnd` does not depend on the connections before the stop. */
  lemma AsWrittenEndShift(q: seq<Json>, conns: seq<seq<seq<byte>>>, n: nat, decode: Decoder)
    requires 0 < n <= |conns|
    requires n < |conns| ==> Receive(conns[n]).StillOpen? || Fatal(conns[n], decode)
    ensures AsWrittenEnd(q, conns[1..], n - 1, decode) == AsWrittenEnd(q, conns, n, decode)
  {
    if n < |conns| {
      assert conns[1..][n - 1] == conns[n];
    }
  }

  /** The written loop serves connections up to the first one it does not
      survive: it is blocked there when that connection is still open and
      dead when it is fatal. The queue gains the decodable payloads of the
      connections before it (`SurvivedPayloads`, which is `Decodable` of
      that prefix), then whatever the fatal one enqueued. */
  lemma {:induction false} ServeAsWrittenStopsAtFirst(queue: seq<Json>, conns: seq<seq<seq<byte>>>, decode: Decoder)
    ensures ServeAsWritten(queue, conns, decode) ==
      AsWrittenEnd(queue + SurvivedPayloads(conns, decode), conns, FirstStop(conns, decode), decode)
    decreases |conns|
  {
    if |conns| == 0 || Receive(conns[0]).StillOpen? || Fatal(conns[0], decode) {
      ServeAsWrittenStopsHere(queue, conns, decode);
      assert queue + SurvivedPayloads(conns, decode) == queue;
    } else {
      var n := FirstStop(conns, decode);
      var data := Receive(conns[0]).data;
      var head := if |data| > 0 && decode(data).Parsed? then [decode(data).value] else [];
      var m := FirstStop(conns[1..], decode);
      var rest := SurvivedPayloads(conns[1..], decode);
      var qn := queue + SurvivedPayloads(conns, decode);
      ServeAsWrittenSurvivesFirst(queue, conns, decode);
      SurvivedShift(queue, conns, decode);
      AsWrittenEndShift(qn, conns, n, decode);
      ServeAsWrittenStopsAtFirst(queue + head, conns[1..], decode);
      calc {
        ServeAsWritten(queue, conns, decode);
        ServeAsWritten(queue + head, conns[1..], decode);
        AsWrittenEnd((queue + head) + rest, conns[1..], m, decode);
        AsWrittenEnd(qn, conns, n, decode);
      }
    }
  }

  /** The bytes of `"5"`. */
  const FiveBytes: seq<byte> := [0x35]

  /** A lone `0xFF` byte, which is not valid UTF-8. */
  const BadUtf8: seq<byte> := [0xFF]

  /** A connection that sends `data` in one chunk and closes. */
  function OneShot(data: seq<byte>): (c: seq<seq<byte>>)
    requires |data| > 0
    ensures Receive(c) == Closed(data)
  {
    ReceiveConcatenates([data], []);
    assert [data] + [[]] + [] == [data, []];
    [data, []]
  }

  /** As written, one connection carrying invalid UTF-8 kills the server:
      a well-formed update sent afterwards is never enqueued. The
      corrected server drops the bad payload and enqueues the good one. */
  lemma InvalidUtf8KillsServer(good: seq<byte>, update: Json, decode: Decoder)
    requires decode(BadUtf8) == UnicodeDecodeError
    requires |good| > 0 && decode(good) == Parsed(update)
    ensures ServeAsWritten([], [OneShot(BadUtf8), OneShot(good)], decode) == ([], Dead)
    ensures Serve([], [OneShot(BadUtf8), OneShot(good)], decode) == ([update], Listening)
  {
    var conns := [OneShot(BadUtf8), OneShot(good)];
    assert conns[1..] == [OneShot(good)];
    assert conns[1..][1..] == [];
    var empty: seq<Json> := [];
    assert empty + [update] == [update];
    assert Step([], conns[0], decode) == ([], Rejected);
    assert Step([], conns[1], decode) == ([update], Enqueued);
    assert Serve([update], [], decode) == ([update], Listening);
  }

  /** As written, a payload that decodes to a number is enqueued and then
      kills the server while logging its length: a later update is never
      enqueued. The corrected server keeps listening. */
  lemma ScalarPayloadKillsServer(good: seq<byte>, update: Json, decode: Decoder)
    requires decode(FiveBytes) == Parsed(JInt(5))
    requires |good| > 0 && decode(good) == Parsed(update)
    ensures ServeAsWritten([], [OneShot(FiveBytes), OneShot(good)], decode) == ([JInt(5)], Dead)
    ensures Serve([], [OneShot(FiveBytes), OneShot(good)], decode) == ([JInt(5), update], Listening)
  {
    var conns := [OneShot(FiveBytes), OneShot(good)];
    assert conns[1..] == [OneShot(good)];
    assert conns[1..][1..] == [];
    var empty: seq<Json> := [];
    assert empty + [JInt(5)] == [JInt(5)];
    assert [JInt(5)] + [update] == [JInt(5), update];
    assert Step([], conns[0], decode) == ([JInt(5)], Enqueued);
    assert Step([JInt(5)], conns[1], decode) == ([JInt(5), update], Enqueued);
    assert Serve([JInt(5), update], [], decode) == ([JInt(5), update], Listening);
  }
}
