/** What every interleaving of the base loop and the I/O loops keeps for every connection. */
module LifecycleTheorems {
  import opened Wrappers
  import opened ConnectionStates
  import opened Lifecycle

  ghost predicate LegalRun(s: Server, ops: seq<Op>)
    decreases |ops|, 1
  {
    ops == [] ||
    var n := |ops| - 1;
    LegalRun(s, ops[..n]) && Legal(Run(s, ops[..n]), ops[n])
  }

  function Run(s: Server, ops: seq<Op>): Server
    decreases |ops|, 0
  {
    if ops == [] then s
    else
      var n := |ops| - 1;
      var t := Run(s, ops[..n]);
      if Legal(t, ops[n]) then Step(t, ops[n]) else t
  }

  lemma StartKeeps(loops: nat)
    requires 0 < loops
    ensures Inv(Start(loops))
  {
    var s := Start(loops);
    forall l, t | 0 <= l < |s.loops| ensures Count(s, l, t) == Expected(s, l, t) {
      assert Queue(s.loops[l]) == [];
    }
  }

  lemma {:induction false} RunKeeps(s: Server, ops: seq<Op>)
    requires Inv(s) && LegalRun(s, ops)
    ensures Inv(Run(s, ops))
  {
    hide Inv, Step, Legal;
    if ops != [] {
      var n := |ops| - 1;
      RunKeeps(s, ops[..n]);
      StepKeeps(Run(s, ops[..n]), ops[n]);
    }
  }

  /** In every run the connected callback comes once, the disconnected callback at most once and after it, the map
      lets go before connectDestroyed, and connectDestroyed comes at most once. */
  lemma CallbacksInOrder(loops: nat, ops: seq<Op>, c: nat)
    requires 0 < loops && LegalRun(Start(loops), ops) && c < |Run(Start(loops), ops).conns|
    ensures var conn := Run(Start(loops), ops).conns[c];
            && conn.destroys <= conn.downs <= conn.ups <= 1
            && (conn.ups == 1 <==> conn.state != Connecting)
            && (conn.state == Disconnected ==> conn.downs == 1)
            && (conn.downs == 1 ==> conn.state == Disconnected || conn.state == Disconnecting)
            && (!conn.inMap ==> conn.downs == 1)
            && (conn.destroys == 1 ==> !conn.inMap && !conn.inPoller)
            && (conn.armed ==> conn.inPoller && conn.inMap)
  {
    StartKeeps(loops);
    RunKeeps(Start(loops), ops);
    assert Fits(Run(Start(loops), ops).conns[c]);
    hide Run, LegalRun, Inv;
  }

  // ----- nothing moves backwards -----

  // The stages a connection still has before it, and the calls of shutdownInLoop that wait for it.
  function Left(c: Conn): nat {
    4 - Rank(StageOf(c)) + c.inTime + c.late
  }

  /** Each functor moves its connection on by one stage, or is one queued call fewer, and touches no other. */
  lemma TaskAdvances(s: Server, l: nat)
    requires Inv(s) && Legal(s, RunTask(l))
    ensures var c := s.loops[l].batch[0].conn;
            var t := Step(s, RunTask(l));
            && c < |s.conns| == |t.conns|
            && Rank(StageOf(t.conns[c])) == Rank(StageOf(s.conns[c])) + (if s.loops[l].batch[0].kind == HalfClose then 0 else 1)
            && Left(t.conns[c]) < Left(s.conns[c])
            && StateRank(t.conns[c].state) >= StateRank(s.conns[c].state)
            && forall i :: 0 <= i < |s.conns| && i != c ==> t.conns[i] == s.conns[i]
  {
    var x := s.loops[l].batch[0];
    HeadIsAwaited(s, l);
    TaskForm(s, l);
    assert Fits(s.conns[x.conn]);
    TaskStage(s, x);
    hide Step;
  }

  lemma CloseAdvances(s: Server, l: nat)
    requires Inv(s) && Legal(s, Close(l))
    ensures var c := s.loops[l].pc.current.value.conn;
            var t := Step(s, Close(l));
            && LiveOn(s, l, c) && |t.conns| == |s.conns|
            && Rank(StageOf(t.conns[c])) > 1 && t.conns[c].state == Disconnected && Left(t.conns[c]) < Left(s.conns[c])
            && forall i :: 0 <= i < |s.conns| && i != c ==> t.conns[i] == s.conns[i]
  {
    assert Handled(s, l);
    CloseForm(s, l);
    assert Fits(s.conns[s.loops[l].pc.current.value.conn]);
    hide Step;
  }

  /** No step moves a connection back to an earlier stage; its state falls exactly when another thread that read
      kConnected sets kDisconnecting on a connection that has closed meanwhile. */
  lemma StepMonotone(s: Server, op: Op, c: nat)
    requires Inv(s) && Legal(s, op) && c < |s.conns|
    ensures var t := Step(s, op);
            && c < |t.conns| && t.conns[c].loop == s.conns[c].loop
            && Rank(StageOf(s.conns[c])) <= Rank(StageOf(t.conns[c]))
            && (StateRank(t.conns[c].state) < StateRank(s.conns[c].state)
                <==> op == SetElsewhere(c) && s.conns[c].state == Disconnected)
  {
    assert Fits(s.conns[c]);
    match op
    case RunTask(l) =>
      TaskAdvances(s, l);
      SameLoop(s, op, c);
      hide Step, Inv, StageOf;
    case Close(l) =>
      CloseAdvances(s, l);
      SameLoop(s, op, c);
      hide Step, Inv;
    case _ => hide Inv;
  }

  lemma SameLoop(s: Server, op: Op, c: nat)
    requires Inv(s) && Legal(s, op) && c < |s.conns|
    ensures var t := Step(s, op); c < |t.conns| && t.conns[c].loop == s.conns[c].loop
  {
    hide Inv;
  }

  /** Between any two points of any run no connection moves back to an earlier stage. */
  lemma {:induction false} Monotone(loops: nat, ops: seq<Op>, k: nat, c: nat)
    requires 0 < loops && LegalRun(Start(loops), ops) && k <= |ops| && c < |Run(Start(loops), ops[..k]).conns|
    ensures var (s, t) := (Run(Start(loops), ops[..k]), Run(Start(loops), ops));
            c < |t.conns| && Rank(StageOf(s.conns[c])) <= Rank(StageOf(t.conns[c]))
    decreases |ops|
  {
    hide Inv, Step, Legal, StageOf;
    if k == |ops| {
      assert ops[..k] == ops;
    } else {
      var n := |ops| - 1;
      assert ops[..n][..k] == ops[..k];
      Monotone(loops, ops[..n], k, c);
      StartKeeps(loops);
      RunKeeps(Start(loops), ops[..n]);
      StepMonotone(Run(Start(loops), ops[..n]), ops[n], c);
    }
  }

  // ----- when the state does move back -----

  // Step k of the run takes the state of connection c back.
  ghost predicate FallsAt(loops: nat, ops: seq<Op>, k: nat, c: nat) {
    k < |ops| &&
    var (s, t) := (Run(Start(loops), ops[..k]), Run(Start(loops), ops[..k + 1]));
    c < |s.conns| && c < |t.conns| && StateRank(t.conns[c].state) < StateRank(s.conns[c].state)
  }

  // Step k of the run is handleClose of connection c.
  ghost predicate ClosesAt(loops: nat, ops: seq<Op>, k: nat, c: nat) {
    k < |ops| && ops[k].Close? &&
    var s := Run(Start(loops), ops[..k]);
    Legal(s, ops[k]) && s.loops[ops[k].loop].pc.current.value.conn == c
  }

  lemma {:induction false} PrefixLegal(s: Server, ops: seq<Op>, k: nat)
    requires LegalRun(s, ops) && k <= |ops|
    ensures LegalRun(s, ops[..k])
  {
    if k < |ops| {
      PrefixLegal(s, ops[..|ops| - 1], k);
      assert ops[..|ops| - 1][..k] == ops[..k];
    } else {
      assert ops[..k] == ops;
    }
  }

  // One step further.
  lemma NextState(loops: nat, ops: seq<Op>, k: nat)
    requires 0 < loops && LegalRun(Start(loops), ops) && k < |ops|
    ensures var s := Run(Start(loops), ops[..k]);
            Inv(s) && Legal(s, ops[k]) && Run(Start(loops), ops[..k + 1]) == Step(s, ops[k])
  {
    hide Inv, Step, Legal;
    PrefixLegal(Start(loops), ops, k);
    PrefixLegal(Start(loops), ops, k + 1);
    assert ops[..k + 1][..k] == ops[..k];
    StartKeeps(loops);
    RunKeeps(Start(loops), ops[..k]);
  }

  // Only a close makes a connection that is down.
  lemma {:induction false} DownMeansClosed(loops: nat, ops: seq<Op>, k: nat, c: nat) returns (i: nat)
    requires 0 < loops && LegalRun(Start(loops), ops) && k <= |ops|
    requires var s := Run(Start(loops), ops[..k]); c < |s.conns| && s.conns[c].downs > 0
    ensures i < k && ClosesAt(loops, ops, i, c)
  {
    hide Run, Inv, LegalRun;
    i := 0;
    if k == 0 {
      RunNone(loops, ops);
    } else {
      NextState(loops, ops, k - 1);
      var s := Run(Start(loops), ops[..k - 1]);
      if c < |s.conns| && s.conns[c].downs > 0 {
        i := DownMeansClosed(loops, ops, k - 1, c);
      } else {
        DownStep(s, ops[k - 1], c);
        i := k - 1;
      }
    }
  }

  lemma RunNone(loops: nat, ops: seq<Op>)
    ensures Run(Start(loops), ops[..0]) == Start(loops)
  {
  }

  lemma DownStep(s: Server, op: Op, c: nat)
    requires Inv(s) && Legal(s, op) && c < |Step(s, op).conns| && Step(s, op).conns[c].downs > 0
    requires c < |s.conns| ==> s.conns[c].downs == 0
    ensures op.Close? && s.loops[op.loop].pc.current.value.conn == c
  {
    match op
    case RunTask(l) => DownTask(s, l, c);
    case Close(l) =>
      CloseAdvances(s, l);
      hide Step, Inv;
    case _ => hide Inv;
  }

  lemma DownTask(s: Server, l: nat, c: nat)
    requires Inv(s) && Legal(s, RunTask(l)) && c < |s.conns| && s.conns[c].downs == 0
    ensures |Step(s, RunTask(l)).conns| == |s.conns| && Step(s, RunTask(l)).conns[c].downs == 0
  {
    var x := s.loops[l].batch[0];
    HeadIsAwaited(s, l);
    assert Fits(s.conns[x.conn]);
    TaskForm(s, l);
    hide Step, Inv;
  }

  lemma AfterCloseDisconnected(loops: nat, ops: seq<Op>, k: nat, c: nat)
    requires 0 < loops && LegalRun(Start(loops), ops) && ClosesAt(loops, ops, k, c)
    ensures var t := Run(Start(loops), ops[..k + 1]); c < |t.conns| && t.conns[c].state == Disconnected
  {
    NextState(loops, ops, k);
    CloseAdvances(Run(Start(loops), ops[..k]), ops[k].loop);
    hide Run, Step, Inv, LegalRun;
  }

  // Past a close the state is Disconnected, unless it has fallen since.
  lemma {:induction false} DisconnectedUntilFall(loops: nat, ops: seq<Op>, i: nat, k: nat, c: nat) returns (f: nat)
    requires 0 < loops && LegalRun(Start(loops), ops) && i < k <= |ops| && ClosesAt(loops, ops, i, c)
    ensures c < |Run(Start(loops), ops[..k]).conns|
    ensures Run(Start(loops), ops[..k]).conns[c].state == Disconnected || FallsAt(loops, ops, f, c)
  {
    hide Run, Step, Inv, LegalRun, Legal, ClosesAt, FallsAt;
    f := 0;
    if k == i + 1 {
      AfterCloseDisconnected(loops, ops, i, c);
    } else {
      f := DisconnectedUntilFall(loops, ops, i, k - 1, c);
      NextState(loops, ops, k - 1);
      StepMonotone(Run(Start(loops), ops[..k - 1]), ops[k - 1], c);
      if Run(Start(loops), ops[..k - 1]).conns[c].state == Disconnected {
        f := k - 1;
        LowerFalls(loops, ops, k - 1, c);
      }
    }
  }

  lemma LowerFalls(loops: nat, ops: seq<Op>, k: nat, c: nat)
    requires k < |ops| && c < |Run(Start(loops), ops[..k]).conns| && c < |Run(Start(loops), ops[..k + 1]).conns|
    requires Run(Start(loops), ops[..k]).conns[c].state == Disconnected
    ensures Run(Start(loops), ops[..k + 1]).conns[c].state == Disconnected || FallsAt(loops, ops, k, c)
  {
    hide Run;
  }

  /** In a run the state of a connection moves back somewhere if and only if another thread that tested it before it
      closed sets it after. */
  lemma StateFallsIff(loops: nat, ops: seq<Op>, c: nat)
    requires 0 < loops && LegalRun(Start(loops), ops)
    ensures (exists k: nat :: FallsAt(loops, ops, k, c))
            <==> (exists i: nat, j: nat :: i < j < |ops| && ClosesAt(loops, ops, i, c) && ops[j] == SetElsewhere(c))
  {
    hide FallsAt, ClosesAt, LegalRun;
    if exists k: nat :: FallsAt(loops, ops, k, c) {
      var k: nat :| FallsAt(loops, ops, k, c);
      var i := FallNeedsClose(loops, ops, k, c);
      assert ops[k] == SetElsewhere(c);
    }
    if exists i: nat, j: nat :: i < j < |ops| && ClosesAt(loops, ops, i, c) && ops[j] == SetElsewhere(c) {
      var i: nat, j: nat :| i < j < |ops| && ClosesAt(loops, ops, i, c) && ops[j] == SetElsewhere(c);
      var k := LateSetFalls(loops, ops, i, j, c);
    }
  }

  lemma FallNeedsClose(loops: nat, ops: seq<Op>, k: nat, c: nat) returns (i: nat)
    requires 0 < loops && LegalRun(Start(loops), ops) && FallsAt(loops, ops, k, c)
    ensures i < k < |ops| && ClosesAt(loops, ops, i, c) && ops[k] == SetElsewhere(c)
  {
    NextState(loops, ops, k);
    var s := Run(Start(loops), ops[..k]);
    StepMonotone(s, ops[k], c);
    assert Fits(s.conns[c]);
    hide Run, Step, Inv, LegalRun, Legal, ClosesAt;
    i := DownMeansClosed(loops, ops, k, c);
  }

  lemma LateSetFalls(loops: nat, ops: seq<Op>, i: nat, j: nat, c: nat) returns (k: nat)
    requires 0 < loops && LegalRun(Start(loops), ops) && i < j < |ops| && ClosesAt(loops, ops, i, c)
    requires ops[j] == SetElsewhere(c)
    ensures FallsAt(loops, ops, k, c)
  {
    k := DisconnectedUntilFall(loops, ops, i, j, c);
    NextState(loops, ops, j);
    hide Run, Inv, LegalRun, ClosesAt;
    if !FallsAt(loops, ops, k, c) {
      k := j;
      StepMonotone(Run(Start(loops), ops[..j]), ops[j], c);
    }
  }

  // The state after the server accepted one connection on its only loop, at the given point of that loop.
  function OneConn(pc: Pc, state: State, tests: nat): Server {
    Server([Loop(pc, [], [], [])], [Conn(0, state, tests, 0, 0, 1, 0, 0, true, true, true)])
  }

  lemma RaceAccept()
    ensures var s := Start(1);
            var polled := Server([Loop(Handling([], None), [], [], [])], []);
            && Legal(s, PollReturn(0, [])) && Step(s, PollReturn(0, [])) == polled
            && Legal(polled, Accept(0)) && Step(polled, Accept(0)) == OneConn(Handling([], None), Connected, 0)
  {
    assert Start(1).loops == [Loop(Idle, [], [], [])];
  }

  lemma RacePass()
    ensures var s := OneConn(Handling([], None), Connected, 0);
            && Legal(s, SwapTasks(0)) && Step(s, SwapTasks(0)) == OneConn(Running, Connected, 0)
            && Legal(OneConn(Running, Connected, 0), EndPass(0))
            && Step(OneConn(Running, Connected, 0), EndPass(0)) == OneConn(Idle, Connected, 0)
  {
  }

  lemma RaceEvent()
    ensures var s := OneConn(Idle, Connected, 0);
            var t := OneConn(Handling([0], None), Connected, 0);
            && Legal(s, PollReturn(0, [0])) && Step(s, PollReturn(0, [0])) == t
            && Legal(t, Begin(0)) && Step(t, Begin(0)) == OneConn(Handling([], Some(Current(0, false))), Connected, 0)
  {
    var active: seq<nat> := [0];
    assert active[1..] == [];
  }

  lemma RaceClose()
    ensures var s := OneConn(Handling([], Some(Current(0, false))), Connected, 0);
            var t := OneConn(Handling([], Some(Current(0, false))), Connected, 1);
            && Legal(s, TestElsewhere(0)) && Step(s, TestElsewhere(0)) == t
            && Legal(t, Close(0)) && |Step(t, Close(0)).conns| == 1 && |Step(t, Close(0)).loops| == 1
            && Step(t, Close(0)).conns[0].loop == 0
            && Step(t, Close(0)).conns[0].state == Disconnected && Step(t, Close(0)).conns[0].tests == 1
  {
  }

  lemma ThenStep(s: Server, ops: seq<Op>, op: Op) returns (longer: seq<Op>)
    requires LegalRun(s, ops) && Legal(Run(s, ops), op)
    ensures longer == ops + [op] && LegalRun(s, longer) && Run(s, longer) == Step(Run(s, ops), op)
  {
    longer := ops + [op];
    assert longer[..|ops|] == ops;
  }

  lemma RaceOpening() returns (ops: seq<Op>)
    ensures LegalRun(Start(1), ops)
    ensures Run(Start(1), ops) == OneConn(Handling([], Some(Current(0, false))), Connected, 0)
  {
    var s := Start(1);
    RaceAccept();
    RacePass();
    RaceEvent();
    hide Step, Legal, Start, OneConn;
    ops := ThenStep(s, [], PollReturn(0, []));
    ops := ThenStep(s, ops, Accept(0));
    ops := ThenStep(s, ops, SwapTasks(0));
    ops := ThenStep(s, ops, EndPass(0));
    ops := ThenStep(s, ops, PollReturn(0, [0]));
    ops := ThenStep(s, ops, Begin(0));
  }

  /** The race takes place: another thread tests a connection, the loop closes it, and the other thread sets its state. */
  lemma ShutdownRace() returns (ops: seq<Op>)
    ensures ops != [] && LegalRun(Start(1), ops) && FallsAt(1, ops, |ops| - 1, 0)
  {
    RaceClose();
    hide Step, Legal, Start, OneConn;
    ops := RaceOpening();
    ops := ThenStep(Start(1), ops, TestElsewhere(0));
    ops := ThenStep(Start(1), ops, Close(0));
    var before := ops;
    SetLate(Run(Start(1), ops));
    ops := ThenStep(Start(1), ops, SetElsewhere(0));
    assert ops[..|before|] == before && ops[..|before| + 1] == ops;
  }

  lemma SetLate(s: Server)
    requires |s.conns| == 1 && s.conns[0].loop < |s.loops| && s.conns[0].state == Disconnected && s.conns[0].tests == 1
    ensures Legal(s, SetElsewhere(0)) && |Step(s, SetElsewhere(0)).conns| == 1
    ensures Step(s, SetElsewhere(0)).conns[0].state == Disconnecting
  {
  }

  // ----- who keeps a connection alive -----

  predicate HeldByTask(L: Loop, c: nat) {
    exists t :: t in L.pending + L.batch + L.done && t.conn == c && t.kind != HalfClose
  }

  // The shared pointers: in the map, in functors queued or just run, and in a running handler.
  ghost predicate Held(s: Server, c: nat) {
    || (c < |s.conns| && s.conns[c].inMap)
    || (exists l :: 0 <= l < |s.loops| && HeldByTask(s.loops[l], c))
    || (exists l :: 0 <= l < |s.loops| && InHandler(s.loops[l], c))
  }

  predicate InHandler(L: Loop, c: nat) {
    L.pc.Handling? && L.pc.current.Some? && L.pc.current.value.conn == c
  }

  /** Until connectDestroyed has run, something holds the connection: its descriptor stays open while its channel
      is known to the poller. */
  lemma AliveUntilDestroyed(s: Server, c: nat)
    requires Inv(s) && c < |s.conns| && s.conns[c].destroys == 0
    ensures Held(s, c)
  {
    var conn := s.conns[c];
    assert Fits(conn);
    if StageOf(conn) == Leaving {
      var t := Task(Destroy, c);
      assert Count(s, conn.loop, t) == Expected(s, conn.loop, t) == 1;
      var L := s.loops[conn.loop];
      assert t in Queue(L);
      assert t in L.pending + L.batch + L.done;
    }
  }

  lemma AliveWhileInPoller(s: Server, c: nat)
    requires Inv(s) && c < |s.conns| && s.conns[c].inPoller
    ensures Held(s, c)
  {
    assert Fits(s.conns[c]);
    AliveUntilDestroyed(s, c);
  }

  /** Every channel poll reported is still alive when its handler's turn comes, so the weak pointer always locks. */
  lemma ActiveIsAlive(s: Server, l: nat, c: nat)
    requires Inv(s) && l < |s.loops| && s.loops[l].pc.Handling? && c in s.loops[l].pc.active
    ensures c < |s.conns| && s.conns[c].inMap && s.conns[c].armed && s.conns[c].loop == l && Held(s, c)
  {
    assert Handled(s, l);
    assert Fits(s.conns[c]);
  }

  /** connectDestroyed runs on the connection's own loop, outside every handler, for a connection that is closed, out of
      the map and still held by the functor itself, and it does not report the disconnection again. */
  lemma DestroyRunsLast(s: Server, l: nat)
    requires Inv(s) && Legal(s, RunTask(l)) && s.loops[l].batch[0].kind == Destroy
    ensures var c := s.loops[l].batch[0].conn;
            var t := Step(s, RunTask(l));
            && s.conns[c].loop == l && s.conns[c].state != Connected && !s.conns[c].inMap && s.conns[c].destroys == 0
            && t.conns[c].destroys == 1 && t.conns[c].downs == s.conns[c].downs == 1
            && Held(t, c)
    ensures forall m :: 0 <= m < |s.loops| ==> !InHandler(s.loops[m], s.loops[l].batch[0].conn)
  {
    var x := s.loops[l].batch[0];
    HeadIsAwaited(s, l);
    assert Fits(s.conns[x.conn]);
    forall m | 0 <= m < |s.loops| ensures !InHandler(s.loops[m], x.conn) {
      assert Handled(s, m);
    }
    hide Inv;
    var t := Step(s, RunTask(l));
    var D := t.loops[l].done;
    assert D[|D| - 1] == x;
    assert x in t.loops[l].pending + t.loops[l].batch + D;
  }

  /** In every run: a connection whose channel the poller knows, or whose event is waiting or being handled, is alive. */
  lemma AlwaysAlive(loops: nat, ops: seq<Op>, c: nat)
    requires 0 < loops && LegalRun(Start(loops), ops) && c < |Run(Start(loops), ops).conns|
    ensures var s := Run(Start(loops), ops);
            && (s.conns[c].inPoller ==> Held(s, c))
            && (forall l :: 0 <= l < |s.loops| && s.loops[l].pc.Handling? && c in s.loops[l].pc.active ==> Held(s, c))
            && (!Held(s, c) ==> s.conns[c].destroys == 1)
  {
    StartKeeps(loops);
    RunKeeps(Start(loops), ops);
    var s := Run(Start(loops), ops);
    assert Fits(s.conns[c]);
    hide Held, Run, LegalRun;
    if s.conns[c].inPoller { AliveWhileInPoller(s, c); }
    if s.conns[c].destroys == 0 { AliveUntilDestroyed(s, c); }
    forall l | 0 <= l < |s.loops| && s.loops[l].pc.Handling? && c in s.loops[l].pc.active ensures Held(s, c) {
      ActiveIsAlive(s, l, c);
    }
    hide Inv;
  }

  // ----- rest -----

  predicate AtRest(s: Server) {
    forall l :: 0 <= l < |s.loops| ==> s.loops[l].pc == Idle && s.loops[l].pending == []
  }

  /** When every loop is idle with nothing queued, each connection is either up, or was destroyed exactly once
      and is held by nobody. */
  lemma Quiescent(s: Server, c: nat)
    requires Inv(s) && AtRest(s) && c < |s.conns|
    ensures StageOf(s.conns[c]) == Live || (StageOf(s.conns[c]) == Gone && !Held(s, c))
    ensures s.conns[c].destroys == s.conns[c].downs && s.conns[c].inTime + s.conns[c].late == 0
  {
    var conn := s.conns[c];
    assert Fits(conn);
    NothingQueued(s, Task(Establish, c));
    NothingQueued(s, Task(Remove, c));
    NothingQueued(s, Task(Destroy, c));
    NothingQueued(s, Task(HalfClose, c));
    forall l | 0 <= l < |s.loops| ensures !HeldByTask(s.loops[l], c) && !InHandler(s.loops[l], c) {
      assert s.loops[l].pending + s.loops[l].batch + s.loops[l].done == [];
    }
  }

  /** In every run that ends at rest, each connection accepted is up, or was destroyed exactly once and is held by nobody. */
  lemma AtRestEachIsLiveOrGone(loops: nat, ops: seq<Op>, c: nat)
    requires 0 < loops && LegalRun(Start(loops), ops) && AtRest(Run(Start(loops), ops))
    requires c < |Run(Start(loops), ops).conns|
    ensures var s := Run(Start(loops), ops);
            if StageOf(s.conns[c]) == Live then s.conns[c].downs == 0 && s.conns[c].destroys == 0
            else s.conns[c].ups == 1 && s.conns[c].downs == 1 && s.conns[c].destroys == 1 && !Held(s, c)
  {
    StartKeeps(loops);
    RunKeeps(Start(loops), ops);
    var s := Run(Start(loops), ops);
    assert Fits(s.conns[c]);
    hide Held, Run, LegalRun;
    Quiescent(s, c);
  }

  lemma NothingQueued(s: Server, t: Task)
    requires Inv(s) && AtRest(s) && t.conn < |s.conns|
    ensures if t.kind == HalfClose then s.conns[t.conn].inTime + s.conns[t.conn].late == 0
            else StageOf(s.conns[t.conn]) != AwaitedAt(t.kind)
  {
    var l := Home(s, t);
    assert s.conns[t.conn].loop < |s.loops|;
    assert Queue(s.loops[l]) == [];
    assert Count(s, l, t) == Expected(s, l, t);
  }

  // ----- getting there -----

  // What all connections still have before them.
  function StagesLeft(conns: seq<Conn>): nat {
    if conns == [] then 0
    else Left(conns[|conns| - 1]) + StagesLeft(conns[..|conns| - 1])
  }

  // The steps a loop still has before it is idle with nothing queued, if no functor runs meanwhile.
  function PhasesLeft(L: Loop): nat {
    match L.pc
    case Idle => if L.pending == [] then 0 else 4
    case Handling(active, current) => 3 + 2 * |active| + (if current.Some? then 1 else 0)
    case Running => if L.batch != [] then 2 else if L.pending == [] then 1 else 5
  }

  function LoopsLeft(loops: seq<Loop>): nat {
    if loops == [] then 0 else PhasesLeft(loops[|loops| - 1]) + LoopsLeft(loops[..|loops| - 1])
  }

  lemma {:induction false} StagesDrop(a: seq<Conn>, b: seq<Conn>, c: nat)
    requires |a| == |b| && c < |a| && Left(b[c]) < Left(a[c])
    requires forall i :: 0 <= i < |a| && i != c ==> a[i] == b[i]
    ensures StagesLeft(b) < StagesLeft(a)
  {
    hide Left;
    var n := |a| - 1;
    if c == n {
      assert a[..n] == b[..n];
    } else {
      StagesDrop(a[..n], b[..n], c);
    }
  }

  lemma {:induction false} PhasesDrop(a: seq<Loop>, l: nat, L: Loop)
    requires l < |a| && PhasesLeft(L) < PhasesLeft(a[l])
    ensures LoopsLeft(a[l := L]) < LoopsLeft(a)
  {
    hide PhasesLeft;
    var n := |a| - 1;
    var b := a[l := L];
    if l == n {
      assert a[..n] == b[..n];
    } else {
      assert b[..n] == a[..n][l := L];
      PhasesDrop(a[..n], l, L);
    }
  }

  // Steps that bring in nothing new: an idle loop polls only because something is queued, and finds no events.
  predicate Draining(s: Server, op: Op) {
    match op
    case Accept(l) => false
    case Shutdown(c) => false
    case TestElsewhere(c) => false
    case SetElsewhere(c) => false
    case PollReturn(l, active) => active == [] && l < |s.loops| && s.loops[l].pending != []
    case _ => true
  }

  /** Every such step brings the server nearer to rest: no schedule of the loops can go on for ever. */
  lemma DrainingDescends(s: Server, op: Op)
    requires Inv(s) && Legal(s, op) && Draining(s, op)
    ensures var t := Step(s, op);
            || StagesLeft(t.conns) < StagesLeft(s.conns)
            || (t.conns == s.conns && LoopsLeft(t.loops) < LoopsLeft(s.loops))
  {
    match op
    case RunTask(l) =>
      TaskAdvances(s, l);
      hide Step, Inv;
      StagesDrop(s.conns, Step(s, op).conns, s.loops[l].batch[0].conn);
    case Close(l) =>
      CloseAdvances(s, l);
      hide Step, Inv;
      StagesDrop(s.conns, Step(s, op).conns, s.loops[l].pc.current.value.conn);
    case Accept(l) =>
    case Shutdown(c) =>
    case TestElsewhere(c) =>
    case SetElsewhere(c) =>
    case PollReturn(l, active) => QuietDescends(s, op, l);
    case Begin(l) => QuietDescends(s, op, l);
    case EndEvent(l) => QuietDescends(s, op, l);
    case SwapTasks(l) => QuietDescends(s, op, l);
    case EndPass(l) => QuietDescends(s, op, l);
  }

  lemma QuietDescends(s: Server, op: Op, l: nat)
    requires Legal(s, op) && Draining(s, op) && l < |s.loops|
    requires op == PollReturn(l, []) || op == Begin(l) || op == EndEvent(l) || op == SwapTasks(l) || op == EndPass(l)
    ensures Step(s, op).conns == s.conns && LoopsLeft(Step(s, op).loops) < LoopsLeft(s.loops)
  {
    PhasesDrop(s.loops, l, Step(s, op).loops[l]);
  }

  /** And until the server is at rest some such step is possible. */
  lemma DrainingPossible(s: Server) returns (op: Op)
    requires Inv(s) && !AtRest(s)
    ensures Legal(s, op) && Draining(s, op)
  {
    var l :| 0 <= l < |s.loops| && (s.loops[l].pc != Idle || s.loops[l].pending != []);
    match s.loops[l].pc
    case Idle => op := PollReturn(l, []);
    case Handling(active, current) =>
      op := if current.Some? then EndEvent(l) else if active != [] then Begin(l) else SwapTasks(l);
    case Running =>
      if s.loops[l].batch == [] {
        op := EndPass(l);
      } else {
        HeadIsAwaited(s, l);
        op := RunTask(l);
      }
  }
}
