/** What every run of a connection's output keeps: nothing lost, the half-close, draining and callbacks. */
module ConnectionTheorems {
  import opened Buffers
  import opened ConnectionStates
  import opened ConnectionSpec

  // ----- what is sent -----

  // Everything passed to send while the connection was up.
  function Sent(c: Conn, ops: seq<Op>): seq<byte> {
    if ops == [] then []
    else
      var n := |ops| - 1;
      Sent(c, ops[..n]) +
      (if ops[n].Send? && Run(c, ops[..n]).state == Connected then ops[n].data else [])
  }

  /** Unless a write reports a broken pipe, everything sent while the connection is up is written or waits, in order. */
  lemma {:induction false} NothingLost(mark: nat, complete: bool, high: bool, ops: seq<Op>)
    requires LegalRun(Init(mark, complete, high), ops)
    requires forall i :: 0 <= i < |ops| && ops[i].Send? ==> ops[i].result != BrokenPipe
    ensures var c := Run(Init(mark, complete, high), ops);
            c.written + c.out == Sent(Init(mark, complete, high), ops)
  {
    var c := Init(mark, complete, high);
    RunKeeps(mark, complete, high, ops);
    AcceptedIsSent(c, ops);
  }

  lemma SendAccepts(c: Conn, data: seq<byte>, result: WriteResult)
    requires result != BrokenPipe
    ensures SendInLoop(c, data, result).accepted == c.accepted + data
  {
  }

  lemma WritableAccepts(c: Conn, result: WriteResult)
    ensures HandleWrite(c, result).accepted == c.accepted && HandleWrite(c, result).state == c.state
    ensures HandleWrite(c, result).tests == c.tests
  {
  }

  lemma StepAccepts(c: Conn, op: Op)
    requires op.Send? ==> op.result != BrokenPipe
    ensures Step(c, op).accepted == c.accepted + (if op.Send? && c.state == Connected then op.data else [])
  {
    hide SendInLoop, HandleWrite;
    assert c.accepted + [] == c.accepted;
    match op
    case Send(data, result) => SendAccepts(c, data, result);
    case Writable(result) => WritableAccepts(c, result);
    case _ =>
  }

  lemma {:induction false} AcceptedIsSent(c: Conn, ops: seq<Op>)
    requires c.accepted == []
    requires forall i :: 0 <= i < |ops| && ops[i].Send? ==> ops[i].result != BrokenPipe
    ensures Run(c, ops).accepted == Sent(c, ops)
  {
    hide Step;
    if ops != [] {
      var n := |ops| - 1;
      AcceptedIsSent(c, ops[..n]);
      StepAccepts(Run(c, ops[..n]), ops[n]);
    }
  }

  // ----- the half-close -----

  /** While the connection is not closed, a half-close comes only when every accepted byte is written. */
  lemma HalfCloseIsClean(c: Conn, op: Op)
    requires Inv(c) && Legal(c, op) && !c.closed && Step(c, op).halfCloses > c.halfCloses
    ensures var d := Step(c, op);
            d.state == Disconnecting && d.out == [] && d.written == d.accepted == c.accepted
  {
    StepKeeps(c, op);
  }

  /** Once shut down or closed, nothing more is accepted and the connection never comes up again. */
  lemma ClosedForSending(c: Conn, op: Op)
    requires c.state == Disconnecting || c.state == Disconnected
    requires Legal(c, op)
    ensures Step(c, op).accepted == c.accepted
    ensures Step(c, op).state == Disconnecting || Step(c, op).state == Disconnected
    ensures c.closed && Inv(c) ==> Step(c, op).closed && Step(c, op).out == c.out && Step(c, op).written == c.written
  {
    hide SendInLoop;
    if op.Writable? && !c.closed { WritableAccepts(c, op.result); }
  }

  /** Shut down on the loop's own thread, the connection half-closes at most once. */
  lemma {:induction false} HalfClosesOnce(mark: nat, complete: bool, high: bool, ops: seq<Op>)
    requires LegalRun(Init(mark, complete, high), ops)
    requires TestElsewhere !in ops
    ensures Run(Init(mark, complete, high), ops).halfCloses <= 1
  {
    HalfClosesBound(mark, complete, high, ops);
    NoTestNoSet(mark, complete, high, ops);
  }

  // How many calls of shutdown() on other threads got past their test.
  function Sets(ops: seq<Op>): nat {
    if ops == [] then 0
    else Sets(ops[..|ops| - 1]) + (if ops[|ops| - 1] == SetElsewhere then 1 else 0)
  }

  // The half-close that draining, or the loop's own shutdown, may still bring.
  function Pending(c: Conn): nat {
    if c.state == Connecting || c.state == Connected || (!c.closed && c.out != []) then 1 else 0
  }

  lemma StepBound(c: Conn, op: Op)
    requires Inv(c) && Legal(c, op)
    ensures var d := Step(c, op);
            d.halfCloses + d.queued + Pending(d) <= c.halfCloses + c.queued + Pending(c) + (if op == SetElsewhere then 1 else 0)
  {
    hide SendInLoop, HandleWrite;
    match op
    case Send(data, result) => if c.state == Connected { SendBound(c, data, result); }
    case Writable(result) => WritableBound(c, result);
    case _ =>
  }

  lemma SendBound(c: Conn, data: seq<byte>, result: WriteResult)
    ensures var d := SendInLoop(c, data, result);
            d.state == c.state && d.halfCloses == c.halfCloses && d.queued == c.queued && d.tests == c.tests && d.closed == c.closed
  {
  }

  lemma WritableBound(c: Conn, result: WriteResult)
    requires Inv(c)
    ensures var d := HandleWrite(c, result);
            && d.state == c.state && d.queued == c.queued && d.tests == c.tests && d.closed == c.closed
            && d.halfCloses + Pending(d) <= c.halfCloses + Pending(c)
  {
  }

  /** In every run there are at most as many half-closes as other threads' shutdowns, and one more. */
  lemma {:induction false} HalfClosesBound(mark: nat, complete: bool, high: bool, ops: seq<Op>)
    requires LegalRun(Init(mark, complete, high), ops)
    ensures var c := Run(Init(mark, complete, high), ops);
            c.halfCloses + c.queued + Pending(c) <= 1 + Sets(ops)
  {
    hide Step, Inv, Legal, Pending;
    if ops != [] {
      var n := |ops| - 1;
      HalfClosesBound(mark, complete, high, ops[..n]);
      RunKeeps(mark, complete, high, ops[..n]);
      StepBound(Run(Init(mark, complete, high), ops[..n]), ops[n]);
    } else {
      InitBound(mark, complete, high);
    }
  }

  lemma InitBound(mark: nat, complete: bool, high: bool)
    ensures var c := Init(mark, complete, high); c.halfCloses + c.queued + Pending(c) <= 1
  {
  }

  lemma StepTests(c: Conn, op: Op)
    requires Legal(c, op) && c.tests == 0 && op != TestElsewhere
    ensures Step(c, op).tests == 0 && op != SetElsewhere
  {
    hide HandleWrite, SendInLoop;
    match op
    case Send(data, result) => SendBound(c, data, result);
    case Writable(result) => WritableAccepts(c, result);
    case _ =>
  }

  lemma {:induction false} NoTestNoSet(mark: nat, complete: bool, high: bool, ops: seq<Op>)
    requires LegalRun(Init(mark, complete, high), ops) && TestElsewhere !in ops
    ensures Run(Init(mark, complete, high), ops).tests == 0 && Sets(ops) == 0
  {
    hide Step, Legal;
    if ops != [] {
      var n := |ops| - 1;
      assert ops[n] in ops && forall op :: op in ops[..n] ==> op in ops;
      NoTestNoSet(mark, complete, high, ops[..n]);
      StepTests(Run(Init(mark, complete, high), ops[..n]), ops[n]);
    }
  }

  lemma ThenOp(c: Conn, ops: seq<Op>, op: Op) returns (longer: seq<Op>)
    requires LegalRun(c, ops) && Legal(Run(c, ops), op)
    ensures LegalRun(c, longer) && Run(c, longer) == Step(Run(c, ops), op) && longer == ops + [op]
  {
    longer := ops + [op];
    assert longer[..|ops|] == ops;
  }

  // ----- one shutdown from another thread -----

  // After the call, with no other in flight and nothing waiting, at most the queued half-close is to come.
  ghost predicate AtMostOneLeft(c: Conn) {
    c.tests == 0 && !c.writing && (c.state == Disconnecting || c.state == Disconnected) && c.halfCloses + c.queued <= 1
  }

  lemma {:induction false} OneLeftKeeps(c: Conn, ops: seq<Op>)
    requires AtMostOneLeft(c) && LegalRun(c, ops) && TestElsewhere !in ops
    ensures AtMostOneLeft(Run(c, ops))
  {
    hide Step, Legal, AtMostOneLeft;
    if ops != [] {
      var n := |ops| - 1;
      assert ops[n] in ops && forall op :: op in ops[..n] ==> op in ops;
      OneLeftKeeps(c, ops[..n]);
      OneLeftStep(Run(c, ops[..n]), ops[n]);
    }
  }

  lemma OneLeftStep(c: Conn, op: Op)
    requires AtMostOneLeft(c) && Legal(c, op) && op != TestElsewhere
    ensures AtMostOneLeft(Step(c, op))
  {
    hide SendInLoop;
  }

  // What another thread finds when it is about to set the state: a connection still up with nothing waiting, or one
  // that closed meanwhile and was never half-closed.
  predicate SafeToSet(c: Conn) {
    (c.state == Connected && c.out == []) || (c.closed && c.halfCloses + c.queued == 0)
  }

  /** The one shutdown in flight brings at most one half-close in every continuation if and only if, when it sets the
      state, the connection is up with nothing waiting, or has closed without ever being half-closed. */
  lemma HalfClosesOnceIff(c: Conn)
    requires Inv(c) && c.tests == 1
    ensures (forall ops :: LegalRun(Step(c, SetElsewhere), ops) && TestElsewhere !in ops
                           ==> Run(Step(c, SetElsewhere), ops).halfCloses <= 1)
            <==> SafeToSet(c)
  {
    var d := Step(c, SetElsewhere);
    if SafeToSet(c) {
      forall ops | LegalRun(d, ops) && TestElsewhere !in ops ensures Run(d, ops).halfCloses <= 1 {
        OneLeftKeeps(d, ops);
      }
    } else {
      var ops := SecondHalfClose(c);
    }
  }

  // Where the condition fails, two steps at most lead to the second half-close.
  lemma SecondHalfClose(c: Conn) returns (ops: seq<Op>)
    requires Inv(c) && c.tests == 1 && !SafeToSet(c)
    ensures var d := Step(c, SetElsewhere);
            LegalRun(d, ops) && TestElsewhere !in ops && Run(d, ops).halfCloses >= 2
  {
    hide Step, Legal, Inv, SafeToSet, Run, LegalRun;
    var d := Step(c, SetElsewhere);
    SetUnsafely(c);
    RunNone(d);
    ops := [];
    if d.writing {
      ops := DrainMore(d, ops);
    } else if d.halfCloses == 0 {
      ops := CallMore(d, ops);
    }
    ops := CallMore(d, ops);
  }

  lemma DrainMore(d: Conn, ops: seq<Op>) returns (longer: seq<Op>)
    requires LegalRun(d, ops) && TestElsewhere !in ops
    requires var e := Run(d, ops); e.state == Disconnecting && e.writing && e.out != []
    ensures LegalRun(d, longer) && TestElsewhere !in longer
    ensures var (e, f) := (Run(d, ops), Run(d, longer));
            !f.writing && f.halfCloses == e.halfCloses + 1 && f.queued == e.queued
  {
    hide Step, Legal, Run, LegalRun;
    var e := Run(d, ops);
    DrainHalfCloses(e);
    longer := ThenOp(d, ops, Writable(Wrote(|e.out|)));
  }

  lemma CallMore(d: Conn, ops: seq<Op>) returns (longer: seq<Op>)
    requires LegalRun(d, ops) && TestElsewhere !in ops && !Run(d, ops).writing && Run(d, ops).queued > 0
    ensures LegalRun(d, longer) && TestElsewhere !in longer
    ensures var (e, f) := (Run(d, ops), Run(d, longer));
            !f.writing && f.halfCloses == e.halfCloses + 1 && f.queued == e.queued - 1
  {
    hide Step, Legal, Run, LegalRun;
    CallHalfCloses(Run(d, ops));
    longer := ThenOp(d, ops, RunShutdown);
  }

  lemma RunNone(c: Conn)
    ensures LegalRun(c, []) && Run(c, []) == c
  {
  }

  lemma SetUnsafely(c: Conn)
    requires Inv(c) && c.tests == 1 && !SafeToSet(c)
    ensures var d := Step(c, SetElsewhere);
            && d.state == Disconnecting && d.queued > 0 && (d.writing ==> d.out != [])
            && (d.writing || d.halfCloses + d.queued >= 2)
  {
  }

  lemma DrainHalfCloses(d: Conn)
    requires d.state == Disconnecting && d.writing && d.out != []
    ensures var op := Writable(Wrote(|d.out|));
            var e := Step(d, op);
            Legal(d, op) && !e.writing && e.halfCloses == d.halfCloses + 1 && e.queued == d.queued
  {
  }

  lemma CallHalfCloses(d: Conn)
    requires !d.writing && d.queued > 0
    ensures var e := Step(d, RunShutdown);
            Legal(d, RunShutdown) && !e.writing && e.halfCloses == d.halfCloses + 1 && e.queued == d.queued - 1
  {
  }

  /** The same for a caller: of a connection that is up, with no other shutdown in flight, an uninterrupted shutdown from
      another thread brings at most one half-close, whatever follows, if and only if nothing waits to be written. */
  lemma CallOnceIff(c: Conn)
    requires Inv(c) && c.state == Connected && c.tests == 0
    ensures var d := Step(Step(c, TestElsewhere), SetElsewhere);
            (forall ops :: LegalRun(d, ops) && TestElsewhere !in ops ==> Run(d, ops).halfCloses <= 1) <==> c.out == []
  {
    var t := Step(c, TestElsewhere);
    hide Run, LegalRun;
    HalfClosesOnceIff(t);
  }

  /** A run with two half-closes: a byte waits when another thread shuts down, and is written before the loop
      reaches the queued call. */
  lemma TwoHalfCloses() returns (ops: seq<Op>)
    ensures LegalRun(Init(1, false, false), ops) && Run(Init(1, false, false), ops).halfCloses == 2
  {
    var c := Init(1, false, false);
    var d := Waiting();
    WaitingReached();
    WaitingTwice();
    hide Step, Legal, Init, Waiting;
    ops := ThenOp(c, [], Establish);
    ops := ThenOp(c, ops, Send([7], WouldBlock));
    ops := ThenOp(c, ops, TestElsewhere);
    ops := ThenOp(c, ops, SetElsewhere);
    ops := ThenOp(c, ops, Writable(Wrote(1)));
    ops := ThenOp(c, ops, RunShutdown);
  }

  // One byte waits, and another thread has shut the connection down.
  function Waiting(): Conn {
    Conn(Disconnecting, [7], [], true, true, false, 1, false, false, [], [], 0, 1, 0, [], [7])
  }

  // The states before: up, and with the byte waiting.
  function Opened(out: seq<byte>, tests: nat): Conn {
    Conn(Connected, out, [], true, out != [], false, 1, false, false, [], [], tests, 0, 0, [], out)
  }

  lemma ByteWaits()
    ensures SendInLoop(Opened([], 0), [7], WouldBlock) == Opened([7], 0)
  {
    var data: seq<byte> := [7];
    assert data[..0] == [] && data[0..] == data && [] + data == data;
  }

  lemma WaitingReached()
    ensures var c1 := Step(Init(1, false, false), Establish);
            var c2 := Step(c1, Send([7], WouldBlock));
            var c3 := Step(c2, TestElsewhere);
            && Legal(Init(1, false, false), Establish) && Legal(c1, Send([7], WouldBlock)) && Legal(c2, TestElsewhere)
            && Legal(c3, SetElsewhere) && Step(c3, SetElsewhere) == Waiting()
  {
    hide SendInLoop;
    ByteWaits();
    assert Step(Init(1, false, false), Establish) == Opened([], 0);
  }

  lemma WaitingTwice()
    ensures Legal(Waiting(), Writable(Wrote(1)))
    ensures var c := Step(Waiting(), Writable(Wrote(1)));
            Legal(c, RunShutdown) && Step(c, RunShutdown).halfCloses == 2
  {
    var data: seq<byte> := [7];
    assert data[1..] == [];
  }

  // From another thread's shutdown until the loop gets to the queued call.
  lemma {:induction false} BeforeQueuedCall(c: Conn, ops: seq<Op>)
    requires Inv(c) && !c.closed && c.state == Disconnecting && c.queued == 1 && c.tests == 0 && c.halfCloses == 0
    requires LegalRun(c, ops) && !Run(c, ops).closed && RunShutdown !in ops && TestElsewhere !in ops
    ensures var d := Run(c, ops);
            && Inv(d) && !d.closed && d.state == Disconnecting && d.queued == 1 && d.tests == 0
            && d.halfCloses == (if c.out != [] && d.out == [] then 1 else 0)
            && (c.out == [] ==> d.out == [])
  {
    if ops != [] {
      var n := |ops| - 1;
      assert ops[n] in ops && forall op :: op in ops[..n] ==> op in ops;
      var d := Run(c, ops[..n]);
      if d.closed { ClosedStays(d, ops[n]); }
      BeforeQueuedCall(c, ops[..n]);
      StepBeforeCall(d, ops[n]);
    }
  }

  lemma ClosedStays(c: Conn, op: Op)
    requires c.closed
    ensures Step(c, op).closed
  {
  }

  lemma StepBeforeCall(d: Conn, op: Op)
    requires Inv(d) && !d.closed && d.state == Disconnecting && d.queued == 1 && d.tests == 0
    requires Legal(d, op) && !Step(d, op).closed && op != RunShutdown && op != TestElsewhere
    ensures var e := Step(d, op);
            && Inv(e) && e.state == Disconnecting && e.queued == 1 && e.tests == 0
            && e.halfCloses == d.halfCloses + (if d.out != [] && e.out == [] then 1 else 0)
            && (d.out == [] ==> e.out == [])
  {
    StepKeeps(d, op);
  }

  /** Of one run: it half-closes twice exactly when bytes waited at the call and none are left when the loop gets to it,
      once for draining and once for the call. */
  lemma HalfClosesTwiceIff(c: Conn, between: seq<Op>)
    requires Inv(c) && c.state == Connected && c.tests == 0
    requires var d := Step(Step(c, TestElsewhere), SetElsewhere);
             LegalRun(d, between) && !Run(d, between).closed && RunShutdown !in between && TestElsewhere !in between
    ensures var reached := Run(Step(Step(c, TestElsewhere), SetElsewhere), between);
            Step(reached, RunShutdown).halfCloses == 2 <==> c.out != [] && reached.out == []
  {
    hide SendInLoop, HandleWrite, Inv;
    CallState(c);
    var t := Step(c, TestElsewhere);
    StepKeeps(c, TestElsewhere);
    StepKeeps(t, SetElsewhere);
    BeforeQueuedCall(Step(t, SetElsewhere), between);
    hide Run, LegalRun;
  }

  lemma CallState(c: Conn)
    requires Inv(c) && c.state == Connected
    ensures !c.closed && c.queued == 0 && c.halfCloses == 0
  {
  }

  // ----- draining -----

  function WriteEvents(ops: seq<Op>): nat {
    if ops == [] then 0
    else WriteEvents(ops[..|ops| - 1]) + (if ops[|ops| - 1].Writable? then 1 else 0)
  }

  // At each write event while bytes wait, the kernel takes some of them.
  ghost predicate Progress(c: Conn, ops: seq<Op>) {
    forall i :: 0 <= i < |ops| && ops[i].Writable? && Run(c, ops[..i]).out != [] ==>
      ops[i].result.Wrote? && ops[i].result.n > 0
  }

  /** Once shut down, whatever else happens short of a close: when there were as many write events as bytes waiting, and
      the kernel took something at each while bytes were left, everything is written, interest is off, and draining
      brought its half-close; it is the only one unless other threads shut down as well. */
  lemma Drains(c: Conn, ops: seq<Op>)
    requires Inv(c) && !c.closed && c.state == Disconnecting && c.out != []
    requires LegalRun(c, ops) && !Run(c, ops).closed && Progress(c, ops) && |c.out| <= WriteEvents(ops)
    ensures var d := Run(c, ops);
            && d.out == [] && !d.writing && d.written == c.accepted && d.halfCloses >= 1
            && (c.tests == 0 && c.queued == 0 ==> d.halfCloses == 1)
  {
    DrainsBy(c, ops);
    hide Run, LegalRun, Progress;
    assert Run(c, ops).written + [] == Run(c, ops).written;
  }

  lemma {:induction false} DrainsBy(c: Conn, ops: seq<Op>)
    requires Inv(c) && !c.closed && c.state == Disconnecting && c.out != []
    requires LegalRun(c, ops) && !Run(c, ops).closed && Progress(c, ops)
    ensures var d := Run(c, ops);
            && Inv(d) && d.state == Disconnecting && d.accepted == c.accepted
            && (d.out == [] || |d.out| + WriteEvents(ops) <= |c.out|)
            && (d.out == [] ==> d.halfCloses >= 1)
            && (c.tests == 0 && c.queued == 0 ==>
                  d.tests == 0 && d.queued == 0 && d.halfCloses == if d.out == [] then 1 else 0)
  {
    hide Step, Legal;
    if ops != [] {
      var n := |ops| - 1;
      var d := Run(c, ops[..n]);
      if d.closed { ClosedStays(d, ops[n]); }
      assert Progress(c, ops[..n]) by {
        forall i | 0 <= i < n ensures ops[..n][..i] == ops[..i] {
        }
      }
      DrainsBy(c, ops[..n]);
      DrainStep(d, ops[n]);
    }
  }

  lemma DrainStep(d: Conn, op: Op)
    requires Inv(d) && !d.closed && d.state == Disconnecting && Legal(d, op) && !Step(d, op).closed
    requires op.Writable? && d.out != [] ==> op.result.Wrote? && op.result.n > 0
    ensures var e := Step(d, op);
            && Inv(e) && e.state == Disconnecting && e.accepted == d.accepted
            && (d.out == [] ==> e.out == []) && |e.out| <= |d.out| && (op.Writable? && d.out != [] ==> |e.out| < |d.out|)
            && e.halfCloses >= d.halfCloses && (d.out != [] && e.out == [] ==> e.halfCloses >= 1)
            && (d.tests == 0 && d.queued == 0 ==>
                  && e.tests == 0 && e.queued == 0
                  && e.halfCloses == d.halfCloses + (if d.out != [] && e.out == [] then 1 else 0))
  {
    StepKeeps(d, op);
  }

  // ----- callbacks -----

  // Lifting the waiting bytes to the mark.
  function HighPart(c: Conn, d: Conn): seq<Callback> {
    if c.highSet && |c.out| < c.highWaterMark <= |d.out| then [HighWater(|d.out|)] else []
  }

  // Handing the last byte to the kernel, or a whole message that found nothing waiting.
  function CompletePart(c: Conn, d: Conn, op: Op): seq<Callback> {
    var direct := op.Send? && c.state == Connected && c.out == [] && op.result.Wrote?;
    if c.completeSet && d.out == [] && (direct || c.out != []) then [WriteComplete] else []
  }

  lemma SendCallbacks(c: Conn, data: seq<byte>, result: WriteResult)
    requires Inv(c) && c.state == Connected && (result.Wrote? ==> result.n <= |data|)
    ensures var d := SendInLoop(c, data, result);
            d.callbacks == c.callbacks + (HighPart(c, d) + CompletePart(c, d, Send(data, result)))
  {
  }

  lemma WritableCallbacks(c: Conn, result: WriteResult)
    requires Inv(c)
    ensures var d := HandleWrite(c, result);
            d.callbacks == c.callbacks + (HighPart(c, d) + CompletePart(c, d, Writable(result)))
  {
  }

  /** A step queues the high-water callback exactly when it lifts the waiting bytes to the mark, and the
      write-complete callback exactly when it leaves none waiting by handing bytes to the kernel. */
  lemma CallbacksIff(c: Conn, op: Op)
    requires Inv(c) && Legal(c, op)
    ensures var d := Step(c, op);
            d.callbacks == c.callbacks + (HighPart(c, d) + CompletePart(c, d, op))
  {
    hide SendInLoop, HandleWrite, Inv;
    match op
    case Send(data, result) => if c.state == Connected { SendCallbacks(c, data, result); }
    case Writable(result) => WritableCallbacks(c, result);
    case _ => assert c.callbacks + [] == c.callbacks;
  }
}
