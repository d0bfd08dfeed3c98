/** What each step does to a connection's state, and the order in which a loop runs its handlers and functors. */
module LifecycleHistories {
  import opened Wrappers
  import opened ConnectionStates
  import opened Lifecycle
  import opened LifecycleTheorems

  // ----- the state -----

  // The handler that calls handleClose of c.
  predicate ClosesConn(s: Server, op: Op, c: nat) {
    op.Close? && Legal(s, op) && s.loops[op.loop].pc.current.value.conn == c
  }

  // The functor that the step runs is t.
  predicate Runs(s: Server, op: Op, t: Task) {
    op.RunTask? && Legal(s, op) && s.loops[op.loop].batch[0] == t
  }

  function NextState(s: Server, op: Op, c: nat): State
    requires c < |s.conns|
  {
    if op == SetElsewhere(c) then Disconnecting
    else if op == Shutdown(c) && s.conns[c].state == Connected then Disconnecting
    else if ClosesConn(s, op, c) then Disconnected
    else if Runs(s, op, Task(Establish, c)) then Connected
    else s.conns[c].state
  }

  ghost predicate Changes(s: Server, op: Op, c: nat)
    requires Legal(s, op) && c < |s.conns|
  {
    var t := Step(s, op);
    && c < |t.conns| && t.conns[c].state == NextState(s, op, c)
    && t.conns[c].tests == s.conns[c].tests + (if op == TestElsewhere(c) && s.conns[c].state == Connected then 1 else 0)
                           - (if op == SetElsewhere(c) then 1 else 0)
    && t.conns[c].inTime + t.conns[c].late == s.conns[c].inTime + s.conns[c].late
                           + (if op == SetElsewhere(c) then 1 else 0) - (if Runs(s, op, Task(HalfClose, c)) then 1 else 0)
  }

  /** What changes a connection's state, step by step: the queued establishing, its own shutdown while up, the late half of
      another thread's, and the close; connectDestroyed and all else leave it.  The calls of shutdown() on other threads are
      counted in by a test that finds it up, on by the setting, and out by the queued call. */
  lemma StateChanges(s: Server, op: Op, c: nat)
    requires Inv(s) && Legal(s, op) && c < |s.conns|
    ensures Changes(s, op, c)
  {
    match op
    case RunTask(l) => TaskChanges(s, l, c);
    case Close(l) => CloseChanges(s, l, c);
    case _ => OthersChange(s, op, c);
  }

  lemma TaskChanges(s: Server, l: nat, c: nat)
    requires Inv(s) && Legal(s, RunTask(l)) && c < |s.conns|
    ensures Changes(s, RunTask(l), c)
  {
    HeadIsAwaited(s, l);
    TaskForm(s, l);
    assert Fits(s.conns[s.loops[l].batch[0].conn]);
    TaskState(s, s.loops[l].batch[0], c);
    hide Step, Inv, Perform;
  }

  lemma CloseChanges(s: Server, l: nat, c: nat)
    requires Inv(s) && Legal(s, Close(l)) && c < |s.conns|
    ensures Changes(s, Close(l), c)
  {
    CloseForm(s, l);
    hide Step, Inv, StageOf;
  }

  lemma OthersChange(s: Server, op: Op, c: nat)
    requires Legal(s, op) && c < |s.conns| && !op.RunTask? && !op.Close?
    ensures Changes(s, op, c)
  {
    hide TakenOut;
  }

  lemma TaskState(s: Server, x: Task, c: nat)
    requires x.conn < |s.conns| && s.conns[x.conn].loop < |s.loops| && c < |s.conns| && Fits(s.conns[x.conn])
    requires x.kind != HalfClose ==> StageOf(s.conns[x.conn]) == AwaitedAt(x.kind)
    requires x.kind == HalfClose ==> s.conns[x.conn].inTime + s.conns[x.conn].late > 0
    ensures var d := Perform(s, x).conns[c];
            && d.state == (if x == Task(Establish, c) then Connected else s.conns[c].state)
            && d.tests == s.conns[c].tests
            && d.inTime + d.late == s.conns[c].inTime + s.conns[c].late - (if x == Task(HalfClose, c) then 1 else 0)
  {
  }

  /** A new connection is up at once on the base loop, and elsewhere waits for its establishing; it is the only one made. */
  lemma AcceptMakes(s: Server, l: nat)
    requires Inv(s) && Legal(s, Accept(l))
    ensures var t := Step(s, Accept(l));
            && |t.conns| == |s.conns| + 1 && t.conns[..|s.conns|] == s.conns
            && var c := t.conns[|s.conns|];
               && c.loop == l && c.inMap && c.state == (if |s.loops| == 1 then Connected else Connecting)
               && c.ups == (if |s.loops| == 1 then 1 else 0) && c.downs == 0 && c.destroys == 0 && c.tests == 0
  {
    hide Inv;
  }

  // ----- the order -----

  // The functors of a loop, oldest first: run and held, taken out, and waiting.
  function InOrder(L: Loop): seq<Task> {
    L.done + L.batch + L.pending
  }

  // The channels still to be handled, the current one first.
  function Reported(L: Loop): seq<nat> {
    match L.pc
    case Handling(active, Some(current)) => [current.conn] + active
    case Handling(active, None) => active
    case _ => []
  }

  lemma PushInOrder(s: Server, m: nat, t: Task, l: nat)
    requires m < |s.loops| && l < |s.loops|
    ensures var (L, M) := (s.loops[l], Push(s, m, t).loops[l]);
            InOrder(M) == InOrder(L) + (if l == m then [t] else []) && Reported(M) == Reported(L) && M.done == L.done
  {
    var L := s.loops[l];
    assert L.done + L.batch + (L.pending + [t]) == (L.done + L.batch + L.pending) + [t];
    assert InOrder(L) + [] == InOrder(L);
  }

  // Taking the head of the batch moves it behind what has run.
  lemma PopInOrder(s: Server, m: nat, l: nat)
    requires m < |s.loops| && l < |s.loops| && s.loops[m].batch != []
    ensures var (L, M) := (s.loops[l], Pop(s, m).loops[l]);
            InOrder(M) == InOrder(L) && Reported(M) == Reported(L) && |M.done| == |L.done| + (if l == m then 1 else 0)
  {
    var L := s.loops[m];
    assert (L.done + [L.batch[0]]) + L.batch[1..] + L.pending == L.done + L.batch + L.pending;
  }

  lemma PerformInOrder(s: Server, x: Task, l: nat)
    requires x.conn < |s.conns| && s.conns[x.conn].loop < |s.loops| && l < |s.loops|
    ensures var (L, M) := (s.loops[l], Perform(s, x).loops[l]);
            && |Perform(s, x).loops| == |s.loops|
            && InOrder(L) <= InOrder(M) && |InOrder(M)| <= |InOrder(L)| + 1 && Reported(M) == Reported(L) && M.done == L.done
  {
    hide InOrder, Reported, Established, Destroyed, Called;
    if x.kind == Remove {
      var c := x.conn;
      PushInOrder(SetConn(s, c, s.conns[c].(inMap := false)), s.conns[c].loop, Task(Destroy, c), l);
    }
  }

  /** A loop runs its functors in the order in which they were queued, whoever queued them: a step adds at most one, at the
      end; running one takes the oldest not yet run; and only the end of a pass drops what has run. */
  lemma FunctorsInOrder(s: Server, op: Op, l: nat)
    requires Inv(s) && Legal(s, op) && l < |s.loops|
    ensures var t := Step(s, op);
            && l < |t.loops|
            && var (L, M) := (s.loops[l], t.loops[l]);
               && (op != EndPass(l) ==> InOrder(L) <= InOrder(M) && |InOrder(M)| <= |InOrder(L)| + 1)
               && (op == EndPass(l) ==> InOrder(M) == InOrder(L)[|L.done|..])
               && |M.done| == (if op == EndPass(l) then 0 else |L.done| + (if op == RunTask(l) then 1 else 0))
               && (op == RunTask(l) ==> InOrder(L)[|L.done|] == L.batch[0])
  {
    hide Inv, InOrder, Reported;
    match op
    case RunTask(m) =>
      PopInOrder(s, m, l);
      PerformInOrder(Pop(s, m), s.loops[m].batch[0], l);
      BatchIsNext(s.loops[m]);
      hide Push, Pop, Perform;
    case Accept(m) =>
      AcceptInOrder(s, m, l);
      hide Step;
    case Close(m) =>
      CloseInOrder(s, m, l);
      hide Step;
    case SetElsewhere(c) =>
      PushInOrder(SetConn(s, c, LateSet(s, c)), s.conns[c].loop, Task(HalfClose, c), l);
      hide Push, LateSet;
    case _ => QuietInOrder(s, op, l);
  }

  lemma BatchIsNext(L: Loop)
    requires L.batch != []
    ensures |L.done| < |InOrder(L)| && InOrder(L)[|L.done|] == L.batch[0]
  {
  }

  lemma AcceptInOrder(s: Server, m: nat, l: nat)
    requires Legal(s, Accept(m)) && l < |s.loops|
    ensures var t := Step(s, Accept(m));
            && l < |t.loops|
            && InOrder(s.loops[l]) <= InOrder(t.loops[l]) && |InOrder(t.loops[l])| <= |InOrder(s.loops[l])| + 1
            && Reported(t.loops[l]) == Reported(s.loops[l]) && t.loops[l].done == s.loops[l].done
  {
    hide InOrder, Reported, Established, Fresh;
    if m != 0 { PushInOrder(s.(conns := s.conns + [Fresh(m)]), m, Task(Establish, |s.conns|), l); }
  }

  lemma CloseInOrder(s: Server, m: nat, l: nat)
    requires Legal(s, Close(m)) && l < |s.loops|
    ensures var t := Step(s, Close(m));
            && l < |t.loops|
            && InOrder(s.loops[l]) <= InOrder(t.loops[l]) && |InOrder(t.loops[l])| <= |InOrder(s.loops[l])| + 1
            && Reported(t.loops[l]) == Reported(s.loops[l]) && t.loops[l].done == s.loops[l].done
  {
    CloseForm(s, m);
    var pc := s.loops[m].pc;
    var c := pc.current.value.conn;
    var (conn, x) := AfterClose(s, m, c);
    var u := SetConn(SetPc(s, m, pc.(current := Some(Current(c, true)))), c, conn);
    PushInOrder(u, 0, x, l);
    hide Step, Push, AfterClose;
  }

  // The steps that queue and run no functor.
  lemma QuietInOrder(s: Server, op: Op, l: nat)
    requires Inv(s) && Legal(s, op) && l < |s.loops|
    requires !op.RunTask? && !op.Accept? && !op.Close? && !op.SetElsewhere?
    ensures var t := Step(s, op);
            && l < |t.loops|
            && var (L, M) := (s.loops[l], t.loops[l]);
               && (op != EndPass(l) ==> InOrder(M) == InOrder(L) && |M.done| == |L.done|)
               && (op == EndPass(l) ==> InOrder(M) == InOrder(L)[|L.done|..] && M.done == [])
  {
    var L := s.loops[l];
    assert Shape(s);
    hide Inv;
    if op == SwapTasks(l) { assert [] + L.pending + [] == [] + [] + L.pending; }
    if op == EndPass(l) { assert [] + [] + L.pending == (L.done + [] + L.pending)[|L.done|..]; }
  }

  /** A loop handles the channels that a poll reported once each, in the order reported, whatever else happens. */
  lemma HandlersInOrder(s: Server, op: Op, l: nat)
    requires Inv(s) && Legal(s, op) && l < |s.loops|
    ensures var t := Step(s, op);
            && l < |t.loops|
            && Reported(t.loops[l]) == match op
                                       case PollReturn(m, active) => if m == l then active else Reported(s.loops[l])
                                       case EndEvent(m) => if m == l then Reported(s.loops[l])[1..] else Reported(s.loops[l])
                                       case _ => Reported(s.loops[l])
    ensures op == Begin(l) ==> Step(s, op).loops[l].pc.current.Some?
  {
    hide Inv, InOrder;
    match op
    case RunTask(m) =>
      PopInOrder(s, m, l);
      PerformInOrder(Pop(s, m), s.loops[m].batch[0], l);
      hide Push, Pop, Perform, Reported;
    case Accept(m) =>
      AcceptInOrder(s, m, l);
      hide Step, Reported;
    case Close(m) =>
      CloseInOrder(s, m, l);
      hide Step, Reported;
    case SetElsewhere(c) =>
      PushInOrder(SetConn(s, c, LateSet(s, c)), s.conns[c].loop, Task(HalfClose, c), l);
      hide Push, LateSet, Reported;
    case _ =>
  }
}
