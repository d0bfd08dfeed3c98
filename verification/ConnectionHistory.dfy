/** What the run of a connection tells of it: each part of its state written out from the operations alone. */
module ConnectionHistories {
  import opened Buffers
  import opened ConnectionStates
  import opened ConnectionSpec

  // ----- what was read -----

  // The bytes of all successful reads, in order.
  function DataRead(ops: seq<Op>): seq<byte> {
    if ops == [] then []
    else
      var n := |ops| - 1;
      DataRead(ops[..n]) + (match ops[n] case Readable(Got(data)) => data case _ => [])
  }

  // One message for each read that brought something, one error for each that failed.
  function NoticesOf(ops: seq<Op>): seq<Notice> {
    if ops == [] then []
    else
      var n := |ops| - 1;
      NoticesOf(ops[..n]) +
      (match ops[n]
       case Readable(Got(data)) => if |data| > 0 then [Message(|data|)] else []
       case Readable(Failed(errno)) => [ReadError(errno)]
       case _ => [])
  }

  /** In every run the input is all that was read, with one message for each read that brought bytes and one error for
      each that failed. */
  lemma {:induction false} InputIsDataRead(mark: nat, complete: bool, high: bool, ops: seq<Op>)
    requires LegalRun(Init(mark, complete, high), ops)
    ensures var c := Run(Init(mark, complete, high), ops);
            c.input == DataRead(ops) && c.notices == NoticesOf(ops)
  {
    hide Step, Legal;
    if ops != [] {
      var n := |ops| - 1;
      InputIsDataRead(mark, complete, high, ops[..n]);
      StepReads(Run(Init(mark, complete, high), ops[..n]), ops[n]);
    }
  }

  lemma SendReads(c: Conn, data: seq<byte>, result: WriteResult)
    ensures var d := SendInLoop(c, data, result); d.input == c.input && d.notices == c.notices
    ensures var d := HandleWrite(c, result); d.input == c.input && d.notices == c.notices
  {
  }

  lemma StepReads(c: Conn, op: Op)
    ensures var d := Step(c, op);
            && d.input == c.input + (match op case Readable(Got(data)) => data case _ => [])
            && d.notices == c.notices + (match op
                                         case Readable(Got(data)) => if |data| > 0 then [Message(|data|)] else []
                                         case Readable(Failed(errno)) => [ReadError(errno)]
                                         case _ => [])
  {
    hide SendInLoop, HandleWrite;
    assert c.input + [] == c.input && c.notices + [] == c.notices;
    match op
    case Send(data, result) => SendReads(c, data, result);
    case Writable(result) => SendReads(c, [], result);
    case _ =>
  }

  /** A failed read changes nothing else. */
  lemma FailedReadOnlyTells(c: Conn, errno: int)
    ensures Step(c, Readable(Failed(errno))) == c.(notices := c.notices + [ReadError(errno)])
  {
  }

  // ----- when it is up, and when it closes -----

  predicate Ends(op: Op) {
    op == Op.Shutdown || op == SetElsewhere || op == Destroy || op == Hangup || op == Readable(Got([]))
  }

  // Established, and since then neither shut down, nor destroyed, nor hung up, nor at the end of the stream.
  ghost predicate Up(ops: seq<Op>) {
    exists i :: 0 <= i < |ops| && ops[i] == Establish && forall j :: i < j < |ops| ==> !Ends(ops[j])
  }

  // The end of the stream closes the connection, and so do a hang-up and its destruction while it is up.
  ghost predicate ClosesAt(ops: seq<Op>, i: nat)
    requires i < |ops|
  {
    ops[i] == Readable(Got([])) || ops[i] == Hangup || (ops[i] == Destroy && Up(ops[..i]))
  }

  ghost predicate Closed(ops: seq<Op>) {
    exists i :: 0 <= i < |ops| && ClosesAt(ops, i)
  }

  // Closed, and no other thread's shutdown has set the state since.
  ghost predicate LeftClosed(ops: seq<Op>) {
    exists i :: 0 <= i < |ops| && ClosesAt(ops, i) && forall j :: i < j < |ops| ==> ops[j] != SetElsewhere
  }

  ghost function StateAfter(ops: seq<Op>): State {
    if Establish !in ops then Connecting
    else if Up(ops) then Connected
    else if LeftClosed(ops) then Disconnected
    else Disconnecting
  }

  lemma UpEstablished(ops: seq<Op>)
    requires Up(ops)
    ensures Establish in ops
  {
  }

  lemma LeftClosedIsClosed(ops: seq<Op>)
    requires LeftClosed(ops)
    ensures Closed(ops)
  {
  }

  lemma UpLast(ops: seq<Op>)
    requires ops != []
    ensures var n := |ops| - 1; Up(ops) <==> ops[n] == Establish || (Up(ops[..n]) && !Ends(ops[n]))
  {
    var n := |ops| - 1;
    if Up(ops) {
      var i :| 0 <= i < |ops| && ops[i] == Establish && forall j :: i < j < |ops| ==> !Ends(ops[j]);
      assert i < n ==> ops[..n][i] == Establish;
    }
    if Up(ops[..n]) && !Ends(ops[n]) {
      var i :| 0 <= i < n && ops[..n][i] == Establish && forall j :: i < j < n ==> !Ends(ops[..n][j]);
      assert ops[i] == Establish;
      forall j | i < j < |ops| ensures !Ends(ops[j]) {
        assert j < n ==> ops[j] == ops[..n][j];
      }
    }
  }

  lemma ClosesAtPrefix(ops: seq<Op>, i: nat)
    requires i < |ops| - 1
    ensures ClosesAt(ops[..|ops| - 1], i) <==> ClosesAt(ops, i)
  {
    assert ops[..|ops| - 1][..i] == ops[..i];
  }

  lemma ClosedLast(ops: seq<Op>)
    requires ops != []
    ensures var n := |ops| - 1; Closed(ops) <==> Closed(ops[..n]) || ClosesAt(ops, n)
    ensures var n := |ops| - 1; LeftClosed(ops) <==> ClosesAt(ops, n) || (LeftClosed(ops[..n]) && ops[n] != SetElsewhere)
  {
    hide ClosesAt;
    var n := |ops| - 1;
    forall i | 0 <= i < n ensures ClosesAt(ops[..n], i) <==> ClosesAt(ops, i) {
      ClosesAtPrefix(ops, i);
    }
    if LeftClosed(ops[..n]) && ops[n] != SetElsewhere {
      var i :| 0 <= i < n && ClosesAt(ops[..n], i) && forall j :: i < j < n ==> ops[..n][j] != SetElsewhere;
      assert ClosesAt(ops, i);
      forall j | i < j < |ops| ensures ops[j] != SetElsewhere {
        assert j < n ==> ops[j] == ops[..n][j];
      }
    }
    if LeftClosed(ops) && !ClosesAt(ops, n) {
      var i :| 0 <= i < |ops| && ClosesAt(ops, i) && forall j :: i < j < |ops| ==> ops[j] != SetElsewhere;
      assert ClosesAt(ops[..n], i);
      forall j | i < j < n ensures ops[..n][j] != SetElsewhere {
        assert ops[..n][j] == ops[j];
      }
    }
  }

  /** The state after every run: up from the establishing until the first shutdown, destruction, hang-up or end of the stream;
      closed if and only if the run holds an end of the stream, a hang-up, or a destruction while up; reading until then. */
  lemma {:induction false} StateIs(mark: nat, complete: bool, high: bool, ops: seq<Op>)
    requires LegalRun(Init(mark, complete, high), ops)
    ensures var c := Run(Init(mark, complete, high), ops);
            && c.state == StateAfter(ops)
            && (c.closed <==> Closed(ops))
            && (c.reading <==> Establish in ops && !Closed(ops))
  {
    hide Step, Legal, Up, Closed, LeftClosed;
    if ops == [] {
      NothingYet();
    } else {
      var n := |ops| - 1;
      var c := Run(Init(mark, complete, high), ops[..n]);
      StateIs(mark, complete, high, ops[..n]);
      RunKeeps(mark, complete, high, ops[..n]);
      UpLast(ops);
      ClosedLast(ops);
      StepState(c, ops[n]);
      StateLast(ops);
      if Up(ops[..n]) { UpEstablished(ops[..n]); }
      if LeftClosed(ops[..n]) { LeftClosedIsClosed(ops[..n]); }
    }
  }

  lemma NothingYet()
    ensures !Up([]) && !Closed([]) && !LeftClosed([])
  {
  }

  lemma StateLast(ops: seq<Op>)
    requires ops != []
    ensures var n := |ops| - 1; Establish in ops <==> Establish in ops[..n] || ops[n] == Establish
  {
    assert ops == ops[..|ops| - 1] + [ops[|ops| - 1]];
  }

  lemma WriteState(c: Conn, data: seq<byte>, result: WriteResult)
    ensures var d := SendInLoop(c, data, result);
            d.state == c.state && d.closed == c.closed && d.reading == c.reading && d.tests == c.tests && d.queued == c.queued
    ensures var d := HandleWrite(c, result);
            d.state == c.state && d.closed == c.closed && d.reading == c.reading && d.tests == c.tests && d.queued == c.queued
  {
  }

  lemma StepState(c: Conn, op: Op)
    requires Inv(c) && Legal(c, op)
    ensures var d := Step(c, op);
            var closes := op == Readable(Got([])) || op == Hangup || (op == Destroy && c.state == Connected);
            && (d.closed <==> c.closed || closes)
            && (d.reading <==> op == Establish || (c.reading && !closes))
            && d.state == (if op == Establish then Connected
                           else if closes then Disconnected
                           else if op == SetElsewhere || (op == Op.Shutdown && c.state == Connected) then Disconnecting
                           else c.state)
            && (op == SetElsewhere ==> c.state != Connecting)
            && (op == Establish ==> c.state == Connecting)
            && (op.Readable? || op == Hangup ==> c.reading && c.state != Connecting)
  {
    hide SendInLoop, HandleWrite;
    match op
    case Send(data, result) => WriteState(c, data, result);
    case Writable(result) => WriteState(c, [], result);
    case _ =>
  }

  // ----- what is written, and when it half-closes -----

  // What the kernel takes: of a send that finds nothing waiting, or of the waiting bytes at a write event.
  function Taken(c: Conn, op: Op): seq<byte> {
    match op
    case Send(data, Wrote(n)) => if c.state == Connected && c.out == [] && n <= |data| then data[..n] else []
    case Writable(Wrote(n)) => if !c.closed && n <= |c.out| then c.out[..n] else []
    case _ => []
  }

  /** A step hands exactly those bytes to the kernel; it takes on the message of every send while up, unless the kernel
      refuses it for good; what waits is the rest. */
  lemma BytesMove(c: Conn, op: Op)
    requires Inv(c) && Legal(c, op)
    ensures var d := Step(c, op);
            var refused := op.Send? && c.out == [] && op.result == BrokenPipe;
            && d.written == c.written + Taken(c, op)
            && d.accepted == c.accepted + (if op.Send? && c.state == Connected && !refused then op.data else [])
            && d.written + d.out == d.accepted
            && (!d.closed ==> (d.writing <==> d.out != []))
  {
    hide SendInLoop, HandleWrite, Inv;
    StepKeeps(c, op);
    InvBytes(c);
    InvBytes(Step(c, op));
    assert c.written + [] == c.written && c.accepted + [] == c.accepted;
    match op
    case Send(data, result) => if c.state == Connected { SendMoves(c, data, result); }
    case Writable(result) => WriteMoves(c, result);
    case _ =>
  }

  lemma InvBytes(c: Conn)
    requires Inv(c)
    ensures c.written + c.out == c.accepted
    ensures if c.closed then !c.writing && c.state != Connected else c.writing <==> c.out != []
  {
  }

  lemma SendMoves(c: Conn, data: seq<byte>, result: WriteResult)
    requires !c.closed && (c.writing <==> c.out != []) && c.state == Connected && (result.Wrote? ==> result.n <= |data|)
    ensures var d := SendInLoop(c, data, result);
            && d.written == c.written + Taken(c, Send(data, result))
            && d.accepted == c.accepted + (if c.out == [] && result == BrokenPipe then [] else data)
  {
    assert data[..0] == [] && c.accepted + [] == c.accepted && c.written + [] == c.written;
  }

  lemma WriteMoves(c: Conn, result: WriteResult)
    requires if c.closed then !c.writing else c.writing <==> c.out != []
    requires c.writing && result.Wrote? ==> result.n <= |c.out|
    ensures var d := HandleWrite(c, result);
            d.written == c.written + Taken(c, Writable(result)) && d.accepted == c.accepted
  {
    assert c.out[..0] == [] && c.written + [] == c.written;
  }

  /** The write side is shut down by the loop's own shutdown, or by a queued call, that finds no write event awaited, and
      by the write event that hands over the last waiting byte of a connection shut down before; by nothing else. */
  lemma HalfCloseIff(c: Conn, op: Op)
    requires Inv(c) && Legal(c, op)
    ensures var own := op == Op.Shutdown && c.state == Connected && c.out == [];
            var call := op == RunShutdown && (c.out == [] || c.closed);
            var last := op == Writable(Wrote(|c.out|)) && c.out != [] && c.state == Disconnecting && !c.closed;
            Step(c, op).halfCloses == c.halfCloses + (if own || call || last then 1 else 0)
  {
    hide SendInLoop, HandleWrite;
    match op
    case Send(data, result) => SendHalfCloses(c, data, result);
    case Writable(result) => WriteHalfCloses(c, result);
    case _ =>
  }

  lemma SendHalfCloses(c: Conn, data: seq<byte>, result: WriteResult)
    ensures SendInLoop(c, data, result).halfCloses == c.halfCloses
  {
  }

  lemma WriteHalfCloses(c: Conn, result: WriteResult)
    requires Inv(c) && Legal(c, Writable(result))
    ensures var last := result == Wrote(|c.out|) && c.out != [] && c.state == Disconnecting && !c.closed;
            HandleWrite(c, result).halfCloses == c.halfCloses + (if last then 1 else 0)
  {
  }

  function Times(ops: seq<Op>, op: Op): nat {
    if ops == [] then 0
    else Times(ops[..|ops| - 1], op) + (if ops[|ops| - 1] == op then 1 else 0)
  }

  // Calls of shutdown() on other threads that found the connection up.
  ghost function TestsWhileUp(ops: seq<Op>): nat {
    if ops == [] then 0
    else
      var n := |ops| - 1;
      TestsWhileUp(ops[..n]) + (if ops[n] == TestElsewhere && Up(ops[..n]) then 1 else 0)
  }

  /** In every run: each shutdown() of another thread that found the connection up sets the state once, and each such
      setting queues one call; the marks and callbacks stay as they were set. */
  lemma {:induction false} ShutdownsConserved(mark: nat, complete: bool, high: bool, ops: seq<Op>)
    requires LegalRun(Init(mark, complete, high), ops)
    ensures var c := Run(Init(mark, complete, high), ops);
            && c.tests + Times(ops, SetElsewhere) == TestsWhileUp(ops)
            && c.queued + Times(ops, RunShutdown) == Times(ops, SetElsewhere)
            && c.highWaterMark == mark && c.completeSet == complete && c.highSet == high
  {
    hide Step, Legal, Up, Closed, LeftClosed;
    if ops != [] {
      var n := |ops| - 1;
      ShutdownsConserved(mark, complete, high, ops[..n]);
      StateIs(mark, complete, high, ops[..n]);
      if Up(ops[..n]) { UpEstablished(ops[..n]); }
      StepQueues(Run(Init(mark, complete, high), ops[..n]), ops[n]);
      StepSettings(Run(Init(mark, complete, high), ops[..n]), ops[n]);
    }
  }

  lemma StepQueues(c: Conn, op: Op)
    requires Legal(c, op)
    ensures var d := Step(c, op);
            && d.tests == c.tests + (if op == TestElsewhere && c.state == Connected then 1 else 0)
                          - (if op == SetElsewhere then 1 else 0)
            && d.queued == c.queued + (if op == SetElsewhere then 1 else 0) - (if op == RunShutdown then 1 else 0)
  {
    hide SendInLoop, HandleWrite;
    match op
    case Send(data, result) => WriteState(c, data, result);
    case Writable(result) => WriteState(c, [], result);
    case _ =>
  }

  lemma StepSettings(c: Conn, op: Op)
    ensures var d := Step(c, op);
            d.highWaterMark == c.highWaterMark && d.completeSet == c.completeSet && d.highSet == c.highSet
  {
    hide SendInLoop, HandleWrite;
    match op
    case Send(data, result) => WriteSettings(c, data, result);
    case Writable(result) => WriteSettings(c, [], result);
    case _ =>
  }

  lemma WriteSettings(c: Conn, data: seq<byte>, result: WriteResult)
    ensures var d := SendInLoop(c, data, result);
            d.highWaterMark == c.highWaterMark && d.completeSet == c.completeSet && d.highSet == c.highSet
    ensures var d := HandleWrite(c, result);
            d.highWaterMark == c.highWaterMark && d.completeSet == c.completeSet && d.highSet == c.highSet
  {
  }
}
