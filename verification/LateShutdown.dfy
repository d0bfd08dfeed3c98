/** The call of shutdownInLoop that another thread queues binds a raw pointer: when it runs on a connection that is gone. */
module LateShutdowns {
  import opened Wrappers
  import opened ConnectionStates
  import opened Lifecycle
  import opened LifecycleTheorems

  // ----- what is in time and what is late -----

  // A functor that has run in the current pass: where it belongs, and what its connection has reached since.
  ghost predicate DoneOk(s: Server, l: nat, t: Task) {
    t.kind != HalfClose ==>
      && t.conn < |s.conns| && Home(s, t) == l
      && (t.kind == Establish ==> StageOf(s.conns[t.conn]) == Live)
      && (t.kind == Remove ==> Rank(StageOf(s.conns[t.conn])) >= 3)
      && (t.kind == Destroy ==> StageOf(s.conns[t.conn]) == Gone)
  }

  ghost predicate PassesOk(s: Server) {
    forall l, t :: 0 <= l < |s.loops| && t in s.loops[l].done ==> DoneOk(s, l, t)
  }

  // Nothing is late before connectDestroyed is taken out; in the pass that runs it, the vector holds the calls in time; after
  // that pass there are none left.
  ghost predicate Timely(conn: Conn, L: Loop, c: nat) {
    var (d, r) := (Task(Destroy, c), Task(HalfClose, c));
    && (conn.destroys == 0 && d !in L.batch ==> conn.late == 0)
    && (d in L.batch || d in L.done ==> multiset(L.batch)[r] == conn.inTime)
    && (conn.destroys == 1 && d !in L.done ==> conn.inTime == 0)
  }

  ghost predicate AllTimely(s: Server) {
    forall c :: 0 <= c < |s.conns| && s.conns[c].loop < |s.loops| ==> Timely(s.conns[c], s.loops[s.conns[c].loop], c)
  }

  ghost predicate InvLate(s: Server) {
    Inv(s) && PassesOk(s) && AllTimely(s)
  }

  // ----- what the queues say about the stages -----

  // A functor in a loop's queue is awaited.
  lemma QueuedStage(s: Server, l: nat, t: Task)
    requires Inv(s) && l < |s.loops| && t in Queue(s.loops[l])
    ensures t.conn < |s.conns| && Home(s, t) == l
    ensures t.kind != HalfClose ==> StageOf(s.conns[t.conn]) == AwaitedAt(t.kind)
    ensures t.kind == HalfClose ==> s.conns[t.conn].inTime + s.conns[t.conn].late == multiset(Queue(s.loops[l]))[t]
  {
    assert t in multiset(Queue(s.loops[l]));
    assert Count(s, l, t) == Expected(s, l, t);
  }

  lemma QueuedCalls(s: Server, c: nat)
    requires Inv(s) && c < |s.conns|
    ensures s.conns[c].loop < |s.loops|
    ensures multiset(Queue(s.loops[s.conns[c].loop]))[Task(HalfClose, c)] == s.conns[c].inTime + s.conns[c].late
  {
    var l := s.conns[c].loop;
    assert Count(s, l, Task(HalfClose, c)) == Expected(s, l, Task(HalfClose, c));
  }

  // connectDestroyed waits only for a connection that it has not yet destroyed.
  lemma DestroyWaits(s: Server, l: nat, c: nat)
    requires Inv(s) && l < |s.loops| && Task(Destroy, c) in Queue(s.loops[l])
    ensures c < |s.conns| && s.conns[c].loop == l && s.conns[c].destroys == 0
  {
    QueuedStage(s, l, Task(Destroy, c));
    assert Fits(s.conns[c]);
  }

  // ----- every step keeps it -----

  // Loops that work on the same vector, and connections that count the same.
  lemma SameTimely(s: Server, t: Server, c: nat)
    requires c < |s.conns| && c < |t.conns| && s.conns[c].loop < |s.loops| && t.conns[c].loop == s.conns[c].loop < |t.loops|
    requires Timely(s.conns[c], s.loops[s.conns[c].loop], c)
    requires t.conns[c].destroys == s.conns[c].destroys && t.conns[c].inTime == s.conns[c].inTime && t.conns[c].late == s.conns[c].late
    requires t.loops[t.conns[c].loop].batch == s.loops[s.conns[c].loop].batch
    requires t.loops[t.conns[c].loop].done == s.loops[s.conns[c].loop].done
    ensures Timely(t.conns[c], t.loops[t.conns[c].loop], c)
  {
  }

  lemma AcceptTimely(s: Server, l: nat)
    requires InvLate(s) && Legal(s, Accept(l))
    ensures PassesOk(Step(s, Accept(l))) && AllTimely(Step(s, Accept(l)))
  {
    var t, n := Step(s, Accept(l)), |s.conns|;
    AcceptCounts(s, l);
    var m := t.conns[n].loop;
    if Task(Destroy, n) in s.loops[m].batch { QueuedStage(s, m, Task(Destroy, n)); }
    forall k, x | 0 <= k < |t.loops| && x in t.loops[k].done ensures DoneOk(t, k, x) {
      assert DoneOk(s, k, x);
    }
    hide Inv, StageOf, Count;
    assert Task(Destroy, n) in s.loops[m].done ==> DoneOk(s, m, Task(Destroy, n));
    forall c | 0 <= c < |t.conns| && t.conns[c].loop < |t.loops| ensures Timely(t.conns[c], t.loops[t.conns[c].loop], c) {
      if c < n { SameTimely(s, t, c); }
    }
  }

  lemma CloseTimely(s: Server, l: nat)
    requires InvLate(s) && Legal(s, Close(l))
    ensures PassesOk(Step(s, Close(l))) && AllTimely(Step(s, Close(l)))
  {
    var t, n := Step(s, Close(l)), s.loops[l].pc.current.value.conn;
    CloseForm(s, l);
    assert Handled(s, l);
    CloseVectors(s, l);
    hide Inv, Step, Legal;
    forall k, x | 0 <= k < |t.loops| && x in t.loops[k].done ensures DoneOk(t, k, x) {
      assert DoneOk(s, k, x);
    }
    forall c | 0 <= c < |t.conns| && t.conns[c].loop < |t.loops| ensures Timely(t.conns[c], t.loops[t.conns[c].loop], c) {
      SameTimely(s, t, c);
    }
  }

  // A close changes no vector, and counts no call.
  lemma CloseVectors(s: Server, l: nat)
    requires Inv(s) && Legal(s, Close(l))
    ensures var t, n := Step(s, Close(l)), s.loops[l].pc.current.value.conn;
            && |t.loops| == |s.loops| && |t.conns| == |s.conns| && s.loops[l].done == []
            && (forall m :: 0 <= m < |s.loops| ==> t.loops[m].batch == s.loops[m].batch && t.loops[m].done == s.loops[m].done)
            && (forall c :: 0 <= c < |s.conns| && c != n ==> t.conns[c] == s.conns[c])
            && t.conns[n].loop == s.conns[n].loop == l && t.conns[n].destroys == s.conns[n].destroys
            && t.conns[n].inTime == s.conns[n].inTime && t.conns[n].late == s.conns[n].late
            && StageOf(s.conns[n]) == Live
  {
    CloseForm(s, l);
    assert Handled(s, l);
    hide Queued;
  }

  lemma ShutdownTimely(s: Server, op: Op)
    requires InvLate(s) && Legal(s, op) && (op.Shutdown? || op.TestElsewhere? || op.SetElsewhere?)
    ensures PassesOk(Step(s, op)) && AllTimely(Step(s, op))
  {
    var t, n := Step(s, op), op.conn;
    ShutdownSame(s, op);
    hide Inv, StageOf, Count;
    forall k, x | 0 <= k < |t.loops| && x in t.loops[k].done ensures DoneOk(t, k, x) {
      assert DoneOk(s, k, x);
    }
    forall c | 0 <= c < |t.conns| && t.conns[c].loop < |t.loops| ensures Timely(t.conns[c], t.loops[t.conns[c].loop], c) {
      if op.SetElsewhere? && c == n { SetTimely(s, c); } else { SameTimely(s, t, c); }
    }
  }

  lemma SetTimely(s: Server, c: nat)
    requires InvLate(s) && Legal(s, SetElsewhere(c))
    ensures var t := Step(s, SetElsewhere(c));
            && c < |t.conns| && t.conns[c].loop < |t.loops| && Timely(t.conns[c], t.loops[t.conns[c].loop], c)
  {
    var L := s.loops[s.conns[c].loop];
    assert Timely(s.conns[c], L, c);
    if Task(Destroy, c) in L.done {
      assert DoneOk(s, s.conns[c].loop, Task(Destroy, c));
      assert Fits(s.conns[c]);
    }
    hide Inv, PassesOk, AllTimely;
  }

  lemma SwapTimely(s: Server, l: nat)
    requires InvLate(s) && Legal(s, SwapTasks(l))
    ensures PassesOk(Step(s, SwapTasks(l))) && AllTimely(Step(s, SwapTasks(l)))
  {
    var t := Step(s, SwapTasks(l));
    assert s.loops[l].batch == [] && s.loops[l].done == [];
    forall k, x | 0 <= k < |t.loops| && x in t.loops[k].done ensures DoneOk(t, k, x) {
      assert DoneOk(s, k, x);
    }
    forall c | 0 <= c < |t.conns| && t.conns[c].loop < |t.loops| ensures Timely(t.conns[c], t.loops[t.conns[c].loop], c) {
      assert Timely(s.conns[c], s.loops[s.conns[c].loop], c);
      if t.conns[c].loop == l { SwapTimelyOwn(s, l, c); }
    }
  }

  lemma SwapTimelyOwn(s: Server, l: nat, c: nat)
    requires InvLate(s) && Legal(s, SwapTasks(l)) && c < |s.conns| && s.conns[c].loop == l
    ensures Timely(s.conns[c], Loop(Running, [], s.loops[l].pending, []), c)
  {
    var L := s.loops[l];
    assert L.batch == [] && L.done == [];
    assert Timely(s.conns[c], L, c);
    assert [] + L.pending == L.pending;
    if Task(Destroy, c) in L.pending {
      DestroyWaits(s, l, c);
      QueuedCalls(s, c);
    }
    hide Inv, PassesOk, AllTimely;
  }

  lemma EndPassTimely(s: Server, l: nat)
    requires InvLate(s) && Legal(s, EndPass(l))
    ensures PassesOk(Step(s, EndPass(l))) && AllTimely(Step(s, EndPass(l)))
  {
    var t := Step(s, EndPass(l));
    hide Inv;
    forall k, x | 0 <= k < |t.loops| && x in t.loops[k].done ensures DoneOk(t, k, x) {
      assert DoneOk(s, k, x);
    }
    forall c | 0 <= c < |t.conns| && t.conns[c].loop < |t.loops| ensures Timely(t.conns[c], t.loops[t.conns[c].loop], c) {
      assert Timely(s.conns[c], s.loops[s.conns[c].loop], c);
    }
  }

  lemma EventTimely(s: Server, op: Op)
    requires InvLate(s) && Legal(s, op) && (op.PollReturn? || op.Begin? || op.EndEvent?)
    ensures PassesOk(Step(s, op)) && AllTimely(Step(s, op))
  {
    var t := Step(s, op);
    hide Inv;
    forall k, x | 0 <= k < |t.loops| && x in t.loops[k].done ensures DoneOk(t, k, x) {
      assert DoneOk(s, k, x);
    }
    forall c | 0 <= c < |t.conns| && t.conns[c].loop < |t.loops| ensures Timely(t.conns[c], t.loops[t.conns[c].loop], c) {
      SameTimely(s, t, c);
    }
  }

  // ----- the steps that run a functor -----

  // What running the head does to the vectors: it moves from the batch to those done.
  lemma TaskVectors(s: Server, l: nat)
    requires Legal(s, RunTask(l))
    ensures var t, L := Step(s, RunTask(l)), s.loops[l];
            && |t.loops| == |s.loops| && t.loops[l].batch == L.batch[1..] && t.loops[l].done == L.done + [L.batch[0]]
            && (forall m :: 0 <= m < |s.loops| && m != l ==> t.loops[m].batch == s.loops[m].batch && t.loops[m].done == s.loops[m].done)
            && t.conns == s.conns[L.batch[0].conn := AfterTask(s, L.batch[0])]
  {
    TaskForm(s, l);
  }

  lemma BatchCounts(L: Loop, y: Task)
    requires L.batch != []
    ensures multiset(L.batch)[y] == multiset(L.batch[1..])[y] + (if y == L.batch[0] then 1 else 0)
    ensures y in L.batch <==> y == L.batch[0] || y in L.batch[1..]
  {
    assert L.batch == [L.batch[0]] + L.batch[1..];
  }

  lemma TaskPasses(s: Server, l: nat)
    requires InvLate(s) && Legal(s, RunTask(l))
    ensures PassesOk(Step(s, RunTask(l)))
  {
    var t, x := Step(s, RunTask(l)), s.loops[l].batch[0];
    HeadIsAwaited(s, l);
    HeadStage(s, l);
    TaskVectors(s, l);
    hide Inv, Step, StageOf, AfterTask;
    forall k, y | 0 <= k < |t.loops| && y in t.loops[k].done ensures DoneOk(t, k, y) {
      if y in s.loops[k].done { assert DoneOk(s, k, y); }
    }
  }

  lemma TaskTimely(s: Server, l: nat)
    requires InvLate(s) && Legal(s, RunTask(l))
    ensures AllTimely(Step(s, RunTask(l)))
  {
    var t, x := Step(s, RunTask(l)), s.loops[l].batch[0];
    HeadIsAwaited(s, l);
    HeadStage(s, l);
    TaskVectors(s, l);
    hide Inv, Step, StageOf, AfterTask, PassesOk, Timely;
    forall c | 0 <= c < |t.conns| && t.conns[c].loop < |t.loops| ensures Timely(t.conns[c], t.loops[t.conns[c].loop], c) {
      assert Timely(s.conns[c], s.loops[s.conns[c].loop], c);
      if c == x.conn { OwnTaskTimely(s, l); } else { OtherTaskTimely(s, l, c); }
    }
  }

  lemma OtherTaskTimely(s: Server, l: nat, c: nat)
    requires Legal(s, RunTask(l)) && c < |s.conns| && s.conns[c].loop < |s.loops| && c != s.loops[l].batch[0].conn
    requires Timely(s.conns[c], s.loops[s.conns[c].loop], c)
    ensures var t := Step(s, RunTask(l));
            c < |t.conns| && t.conns[c].loop < |t.loops| && Timely(t.conns[c], t.loops[t.conns[c].loop], c)
  {
    TaskVectors(s, l);
    BatchCounts(s.loops[l], Task(Destroy, c));
    BatchCounts(s.loops[l], Task(HalfClose, c));
    hide Step, AfterTask;
  }

  lemma OwnTaskTimely(s: Server, l: nat)
    requires InvLate(s) && Legal(s, RunTask(l))
    ensures var t, c := Step(s, RunTask(l)), s.loops[l].batch[0].conn;
            c < |t.conns| && t.conns[c].loop < |t.loops| && Timely(t.conns[c], t.loops[t.conns[c].loop], c)
  {
    var L, x := s.loops[l], s.loops[l].batch[0];
    var c := x.conn;
    HeadIsAwaited(s, l);
    TaskVectors(s, l);
    BatchCounts(L, Task(Destroy, c));
    BatchCounts(L, Task(HalfClose, c));
    assert Timely(s.conns[c], s.loops[s.conns[c].loop], c);
    if x.kind == HalfClose {
      QueuedCalls(s, c);
      InBatchOnce(s, l, c);
    }
    hide Inv, Step, PassesOk, AllTimely, StageOf;
  }

  // While connectDestroyed is in the vector, it has not run.
  lemma InBatchOnce(s: Server, l: nat, c: nat)
    requires Inv(s) && l < |s.loops|
    ensures Task(Destroy, c) in s.loops[l].batch ==> c < |s.conns| && s.conns[c].destroys == 0
    ensures c < |s.conns| ==> s.conns[c].destroys <= 1
  {
    if Task(Destroy, c) in s.loops[l].batch {
      assert Task(Destroy, c) in Queue(s.loops[l]);
      DestroyWaits(s, l, c);
    }
    if c < |s.conns| { assert Fits(s.conns[c]); }
  }

  lemma StepTimely(s: Server, op: Op)
    requires InvLate(s) && Legal(s, op)
    ensures InvLate(Step(s, op))
  {
    StepKeeps(s, op);
    hide Inv, PassesOk, AllTimely, Step;
    match op
    case Accept(l) => AcceptTimely(s, l);
    case Close(l) => CloseTimely(s, l);
    case SwapTasks(l) => SwapTimely(s, l);
    case EndPass(l) => EndPassTimely(s, l);
    case RunTask(l) =>
      TaskPasses(s, l);
      TaskTimely(s, l);
    case Shutdown(c) => ShutdownTimely(s, op);
    case TestElsewhere(c) => ShutdownTimely(s, op);
    case SetElsewhere(c) => ShutdownTimely(s, op);
    case _ => EventTimely(s, op);
  }

  lemma {:induction false} RunTimely(loops: nat, ops: seq<Op>)
    requires 0 < loops && LegalRun(Start(loops), ops)
    ensures InvLate(Run(Start(loops), ops))
  {
    hide Inv, Step, Legal;
    if ops == [] {
      StartKeeps(loops);
    } else {
      var n := |ops| - 1;
      RunTimely(loops, ops[..n]);
      StepTimely(Run(Start(loops), ops[..n]), ops[n]);
    }
  }

  // ----- a call on a connection that is gone -----

  // The loop is about to run a queued call of shutdownInLoop for connection c.
  predicate Calls(s: Server, l: nat, c: nat) {
    Legal(s, RunTask(l)) && s.loops[l].batch[0] == Task(HalfClose, c)
  }

  /** When such a call runs, the server holds the connection no more if and only if the call was queued after
      connectDestroyed had been taken out, and the base loop has let go of the vector with the removal. */
  lemma CalledOnFreedIff(s: Server, l: nat, c: nat)
    requires InvLate(s) && Calls(s, l, c)
    ensures c < |s.conns| && s.conns[c].loop == l
    ensures !Held(s, c) <==> s.conns[c].inTime == 0 && Task(Remove, c) !in s.loops[0].done
  {
    HeadIsAwaited(s, l);
    assert Timely(s.conns[c], s.loops[l], c);
    assert Fits(s.conns[c]);
    if s.conns[c].inTime == 0 {
      LateIsGone(s, l, c);
      GoneHolders(s, l, c);
      hide Inv, PassesOk, AllTimely;
    } else {
      InTimeIsHeld(s, l, c);
    }
  }

  // No call in time is left: connectDestroyed ran in an earlier pass.
  lemma LateIsGone(s: Server, l: nat, c: nat)
    requires InvLate(s) && Calls(s, l, c) && c < |s.conns| && s.conns[c].loop == l && s.conns[c].inTime == 0
    ensures s.conns[c].destroys == 1 && StageOf(s.conns[c]) == Gone
    ensures Task(Destroy, c) !in s.loops[l].batch + s.loops[l].done
  {
    var L := s.loops[l];
    HeadIsAwaited(s, l);
    assert Timely(s.conns[c], L, c);
    assert Fits(s.conns[c]);
    assert multiset(L.batch)[Task(HalfClose, c)] > 0 by { assert L.batch[0] in multiset(L.batch); }
    InBatchOnce(s, l, c);
  }

  // Of a connection that is gone, only the removal on the base loop or connectDestroyed may still be in a vector.
  lemma GoneHolders(s: Server, l: nat, c: nat)
    requires InvLate(s) && l < |s.loops| && c < |s.conns| && s.conns[c].loop == l && StageOf(s.conns[c]) == Gone
    requires Task(Destroy, c) !in s.loops[l].batch + s.loops[l].done
    ensures Held(s, c) <==> Task(Remove, c) in s.loops[0].done
  {
    assert Fits(s.conns[c]);
    forall m | 0 <= m < |s.loops| ensures !InHandler(s.loops[m], c) {
      assert Handled(s, m);
    }
    forall m | 0 <= m < |s.loops| ensures HeldByTask(s.loops[m], c) <==> m == 0 && Task(Remove, c) in s.loops[0].done {
      GoneTasks(s, l, m, c);
    }
    hide Inv, PassesOk, AllTimely;
  }

  lemma GoneTasks(s: Server, l: nat, m: nat, c: nat)
    requires InvLate(s) && m < |s.loops| && c < |s.conns| && s.conns[c].loop == l < |s.loops| && StageOf(s.conns[c]) == Gone
    requires Task(Destroy, c) !in s.loops[l].batch + s.loops[l].done
    ensures HeldByTask(s.loops[m], c) <==> m == 0 && Task(Remove, c) in s.loops[0].done
  {
    var L := s.loops[m];
    forall t | t in L.pending + L.batch + L.done && t.conn == c && t.kind != HalfClose
      ensures t in L.done && t == Task(Remove, c) && m == 0
    {
      if t in L.pending + L.batch {
        assert t in Queue(L);
        QueuedStage(s, m, t);
      }
      assert DoneOk(s, m, t);
      assert t == Task(t.kind, c);
    }
    hide Inv, PassesOk, AllTimely;
    if m == 0 && Task(Remove, c) in L.done {
      assert Task(Remove, c) in L.pending + L.batch + L.done;
    }
  }

  // While a call in time waits, connectDestroyed has not run, or its pass goes on.
  lemma InTimeIsHeld(s: Server, l: nat, c: nat)
    requires InvLate(s) && l < |s.loops| && c < |s.conns| && s.conns[c].loop == l && s.conns[c].inTime > 0
    ensures Held(s, c)
  {
    assert Timely(s.conns[c], s.loops[l], c);
    assert Fits(s.conns[c]);
    if s.conns[c].destroys == 0 {
      AliveUntilDestroyed(s, c);
    } else {
      var L := s.loops[l];
      assert Task(Destroy, c) in L.pending + L.batch + L.done;
    }
    hide Inv, PassesOk, AllTimely;
  }

  // ----- the same in terms of what has happened -----

  // How often another thread ended a shutdown() of connection c before connectDestroyed was taken out.
  function SetInTime(loops: nat, ops: seq<Op>, c: nat): nat {
    if ops == [] then 0
    else
      var n := |ops| - 1;
      var s := Run(Start(loops), ops[..n]);
      SetInTime(loops, ops[..n], c)
      + (if ops[n] == SetElsewhere(c) && Legal(s, ops[n]) && !TakenOut(s, c) then 1 else 0)
  }

  // How many of the calls queued for it have run.
  function CallsRun(loops: nat, ops: seq<Op>, c: nat): nat {
    if ops == [] then 0
    else
      var n := |ops| - 1;
      var s := Run(Start(loops), ops[..n]);
      CallsRun(loops, ops[..n], c) + (if ops[n].RunTask? && Calls(s, ops[n].loop, c) then 1 else 0)
  }

  // Once connectDestroyed is taken out, it stays so.
  lemma TakenOutStays(s: Server, op: Op, c: nat)
    requires Inv(s) && Legal(s, op) && c < |s.conns| && s.conns[c].loop < |s.loops| && TakenOut(s, c)
    ensures var t := Step(s, op); c < |t.conns| && t.conns[c].loop < |t.loops| && TakenOut(t, c)
  {
    match op
    case RunTask(l) =>
      hide TakenOut, Inv, Step, Legal;
      TaskStays(s, l, c);
    case Close(l) =>
      hide Inv, Step;
      CloseVectors(s, l);
    case SwapTasks(l) =>
      assert s.loops[l].batch == [];
      hide Inv;
    case _ => hide Inv;
  }

  lemma TaskStays(s: Server, l: nat, c: nat)
    requires Inv(s) && Legal(s, RunTask(l)) && c < |s.conns| && s.conns[c].loop < |s.loops| && TakenOut(s, c)
    ensures var t := Step(s, RunTask(l)); c < |t.conns| && t.conns[c].loop < |t.loops| && TakenOut(t, c)
  {
    hide Inv, Step, AfterTask, Fits, StageOf;
    HeadIsAwaited(s, l);
    HeadStage(s, l);
    TaskVectors(s, l);
    TaskDestroys(s, s.loops[l].batch[0]);
    BatchCounts(s.loops[l], Task(Destroy, c));
  }

  lemma TaskDestroys(s: Server, x: Task)
    requires x.conn < |s.conns|
    ensures AfterTask(s, x).destroys == s.conns[x.conn].destroys + (if x.kind == Destroy then 1 else 0)
  {
  }

  // What waits in time is what was set in time less what has run: first queued, first run.
  ghost predicate BacklogOk(s: Server, c: nat, i: nat, r: nat) {
    && (c >= |s.conns| ==> i == 0 && r == 0)
    && (c < |s.conns| ==>
          && s.conns[c].loop < |s.loops|
          && s.conns[c].inTime == (if i > r then i - r else 0)
          && (!TakenOut(s, c) ==> r <= i))
  }

  lemma {:induction false} Backlog(loops: nat, ops: seq<Op>, c: nat)
    requires 0 < loops && LegalRun(Start(loops), ops)
    ensures BacklogOk(Run(Start(loops), ops), c, SetInTime(loops, ops, c), CallsRun(loops, ops, c))
  {
    hide Inv, Step, Legal, BacklogOk, PassesOk, AllTimely;
    if ops == [] {
      BacklogNone(loops, c);
    } else {
      var n := |ops| - 1;
      Backlog(loops, ops[..n], c);
      RunTimely(loops, ops[..n]);
      BacklogStep(Run(Start(loops), ops[..n]), ops[n], c, SetInTime(loops, ops[..n], c), CallsRun(loops, ops[..n], c));
    }
  }

  lemma BacklogNone(loops: nat, c: nat)
    ensures BacklogOk(Start(loops), c, 0, 0)
  {
  }

  lemma BacklogStep(s: Server, op: Op, c: nat, i: nat, r: nat)
    requires InvLate(s) && Legal(s, op) && BacklogOk(s, c, i, r)
    ensures BacklogOk(Step(s, op), c,
                      i + (if op == SetElsewhere(c) && Legal(s, op) && !TakenOut(s, c) then 1 else 0),
                      r + (if op.RunTask? && Calls(s, op.loop, c) then 1 else 0))
  {
    if c < |s.conns| {
      if TakenOut(s, c) { TakenOutStays(s, op, c); } else { NotTakenOutNotLate(s, c); }
      CountStep(s, op, c);
      if op.RunTask? { HeadIsAwaited(s, op.loop); }
    } else {
      NewCounts(s, op, c);
    }
    hide Inv, Step, Legal, PassesOk, AllTimely;
  }

  lemma NotTakenOutNotLate(s: Server, c: nat)
    requires InvLate(s) && c < |s.conns| && s.conns[c].loop < |s.loops| && !TakenOut(s, c)
    ensures s.conns[c].late == 0
  {
    assert Timely(s.conns[c], s.loops[s.conns[c].loop], c);
    assert Fits(s.conns[c]);
    hide Inv, PassesOk, AllTimely;
  }

  lemma CountStep(s: Server, op: Op, c: nat)
    requires Inv(s) && Legal(s, op) && c < |s.conns|
    ensures var t := Step(s, op);
            && c < |t.conns| && t.conns[c].loop == s.conns[c].loop < |s.loops| == |t.loops|
            && t.conns[c].inTime
               == if op == SetElsewhere(c) && !TakenOut(s, c) then s.conns[c].inTime + 1
                  else if op.RunTask? && Calls(s, op.loop, c) && s.conns[c].inTime > 0 then s.conns[c].inTime - 1
                  else s.conns[c].inTime
  {
    match op
    case RunTask(l) =>
      HeadIsAwaited(s, l);
      HeadStage(s, l);
      TaskVectors(s, l);
      hide Inv, Step;
    case Close(l) =>
      CloseVectors(s, l);
      hide Inv, Step;
    case _ => hide Queued, Handled;
  }

  lemma NewCounts(s: Server, op: Op, c: nat)
    requires Inv(s) && Legal(s, op) && c >= |s.conns|
    ensures var t := Step(s, op);
            c < |t.conns| ==> t.conns[c].loop < |t.loops| && t.conns[c].inTime == 0
    ensures op != SetElsewhere(c) && !(op.RunTask? && Calls(s, op.loop, c))
  {
    match op
    case RunTask(l) =>
      HeadIsAwaited(s, l);
      TaskVectors(s, l);
      hide Inv, Step;
    case Close(l) =>
      CloseVectors(s, l);
      hide Inv, Step;
    case _ => hide Queued, Handled;
  }

  lemma HeadInRange(s: Server, l: nat, c: nat)
    requires Inv(s) && Calls(s, l, c)
    ensures c < |s.conns| && 0 < |s.loops|
  {
    HeadIsAwaited(s, l);
  }

  /** In every run: a queued call of shutdownInLoop runs on a connection that the server holds no more if and only if as many
      calls have run before it as were queued before connectDestroyed was taken out, and the base loop has let go of the
      vector with the removal. */
  lemma CallOnFreedIff(loops: nat, ops: seq<Op>, l: nat, c: nat)
    requires 0 < loops && LegalRun(Start(loops), ops) && Calls(Run(Start(loops), ops), l, c)
    ensures var s := Run(Start(loops), ops);
            !Held(s, c) <==> SetInTime(loops, ops, c) <= CallsRun(loops, ops, c) && Task(Remove, c) !in s.loops[0].done
  {
    RunTimely(loops, ops);
    Backlog(loops, ops, c);
    HeadInRange(Run(Start(loops), ops), l, c);
    hide Run, LegalRun, Inv, Held, PassesOk, AllTimely, SetInTime, CallsRun, Calls;
    CalledOnFreedIff(Run(Start(loops), ops), l, c);
  }

  /** With no call queued after connectDestroyed was taken out, none ever runs on a connection that is gone. */
  lemma NeverLateNeverFreed(loops: nat, ops: seq<Op>, l: nat, c: nat)
    requires 0 < loops && LegalRun(Start(loops), ops) && Calls(Run(Start(loops), ops), l, c)
    requires forall k :: 0 <= k < |ops| && ops[k] == SetElsewhere(c) ==>
               var s := Run(Start(loops), ops[..k]);
               c < |s.conns| && s.conns[c].loop < |s.loops| ==> !TakenOut(s, c)
    ensures Held(Run(Start(loops), ops), c)
  {
    var s := Run(Start(loops), ops);
    RunTimely(loops, ops);
    NeverLate(loops, ops, c);
    hide Run, LegalRun, Held;
    CalledOnFreedIff(s, l, c);
    HeadIsAwaited(s, l);
  }

  lemma {:induction false} NeverLate(loops: nat, ops: seq<Op>, c: nat)
    requires 0 < loops && LegalRun(Start(loops), ops)
    requires forall k :: 0 <= k < |ops| && ops[k] == SetElsewhere(c) ==>
               var s := Run(Start(loops), ops[..k]);
               c < |s.conns| && s.conns[c].loop < |s.loops| ==> !TakenOut(s, c)
    ensures var s := Run(Start(loops), ops); c < |s.conns| ==> s.conns[c].late == 0
  {
    hide Inv, Step, Legal, TakenOut;
    if ops != [] {
      var n := |ops| - 1;
      assert forall k :: 0 <= k < n ==> ops[..n][k] == ops[k] && ops[..n][..k] == ops[..k];
      NeverLate(loops, ops[..n], c);
      StartKeeps(loops);
      RunKeeps(Start(loops), ops[..n]);
      NeverLateStep(Run(Start(loops), ops[..n]), ops[n], c);
    }
  }

  lemma NeverLateStep(s: Server, op: Op, c: nat)
    requires Inv(s) && Legal(s, op) && (c < |s.conns| ==> s.conns[c].late == 0)
    requires op == SetElsewhere(c) && c < |s.conns| && s.conns[c].loop < |s.loops| ==> !TakenOut(s, c)
    ensures var t := Step(s, op); c < |t.conns| ==> t.conns[c].late == 0
  {
    match op
    case RunTask(l) =>
      HeadIsAwaited(s, l);
      TaskConns(s, l);
      hide Inv, Step;
    case Close(l) =>
      CloseVectors(s, l);
      hide Inv, Step;
    case _ => hide Inv;
  }

  // ----- it happens -----

  // The server's one connection, closed by its only loop while another thread is in shutdown().
  function ClosedConn(pc: Pc, pending: seq<Task>, batch: seq<Task>, done: seq<Task>, conn: Conn): Server {
    Server([Loop(pc, pending, batch, done)], [conn])
  }

  // That connection, before connectDestroyed and after.
  function Before(): Conn {
    Conn(0, Disconnected, 1, 0, 0, 1, 1, 0, false, false, true)
  }

  function After(state: State, tests: nat, late: nat): Conn {
    Conn(0, state, tests, 0, late, 1, 1, 1, false, false, false)
  }

  const DESTROY: Task := Task(Destroy, 0)
  const CALL: Task := Task(HalfClose, 0)

  lemma LateClose()
    ensures var s := OneConn(Handling([], Some(Current(0, false))), Connected, 0);
            var t := OneConn(Handling([], Some(Current(0, false))), Connected, 1);
            && Legal(s, TestElsewhere(0)) && Step(s, TestElsewhere(0)) == t
            && Legal(t, Close(0))
            && Step(t, Close(0)) == ClosedConn(Handling([], Some(Current(0, true))), [DESTROY], [], [], Before())
  {
    var t := OneConn(Handling([], Some(Current(0, false))), Connected, 1);
    CloseForm(t, 0);
    hide Step;
    assert [] + [DESTROY] == [DESTROY];
  }

  lemma LateDestroy()
    ensures var a := ClosedConn(Handling([], Some(Current(0, true))), [DESTROY], [], [], Before());
            var b := ClosedConn(Handling([], None), [DESTROY], [], [], Before());
            var c := ClosedConn(Running, [], [DESTROY], [], Before());
            var d := ClosedConn(Running, [], [], [DESTROY], After(Disconnected, 1, 0));
            && Legal(a, EndEvent(0)) && Step(a, EndEvent(0)) == b
            && Legal(b, SwapTasks(0)) && Step(b, SwapTasks(0)) == c
            && Legal(c, RunTask(0)) && Step(c, RunTask(0)) == d
  {
    assert [DESTROY][1..] == [] && [] + [DESTROY] == [DESTROY];
  }

  lemma LateSetting()
    ensures var d := ClosedConn(Running, [], [], [DESTROY], After(Disconnected, 1, 0));
            var e := ClosedConn(Running, [CALL], [], [DESTROY], After(Disconnecting, 0, 1));
            var f := ClosedConn(Idle, [CALL], [], [], After(Disconnecting, 0, 1));
            && Legal(d, SetElsewhere(0)) && Step(d, SetElsewhere(0)) == e
            && Legal(e, EndPass(0)) && Step(e, EndPass(0)) == f
  {
    assert [] + [CALL] == [CALL];
  }

  lemma LatePass()
    ensures var f := ClosedConn(Idle, [CALL], [], [], After(Disconnecting, 0, 1));
            var g := ClosedConn(Handling([], None), [CALL], [], [], After(Disconnecting, 0, 1));
            var h := ClosedConn(Running, [], [CALL], [], After(Disconnecting, 0, 1));
            && Legal(f, PollReturn(0, [])) && Step(f, PollReturn(0, [])) == g
            && Legal(g, SwapTasks(0)) && Step(g, SwapTasks(0)) == h
            && Calls(h, 0, 0) && !Held(h, 0)
  {
    var h := ClosedConn(Running, [], [CALL], [], After(Disconnecting, 0, 1));
    assert h.loops[0].pending + h.loops[0].batch + h.loops[0].done == [CALL];
  }

  /** A run in which it happens: the loop closes and destroys the connection between another thread's test and its set, and
      finds the queued call in its next pass. */
  lemma CallOnFreed() returns (ops: seq<Op>)
    ensures LegalRun(Start(1), ops) && Calls(Run(Start(1), ops), 0, 0) && !Held(Run(Start(1), ops), 0)
  {
    LateClose();
    LateDestroy();
    LateSetting();
    LatePass();
    hide Step, Legal, Start, OneConn, ClosedConn, Held, Calls;
    ops := RaceOpening();
    ops := ThenStep(Start(1), ops, TestElsewhere(0));
    ops := ThenStep(Start(1), ops, Close(0));
    ops := ThenStep(Start(1), ops, EndEvent(0));
    ops := ThenStep(Start(1), ops, SwapTasks(0));
    ops := ThenStep(Start(1), ops, RunTask(0));
    ops := ThenStep(Start(1), ops, SetElsewhere(0));
    ops := ThenStep(Start(1), ops, EndPass(0));
    ops := ThenStep(Start(1), ops, PollReturn(0, []));
    ops := ThenStep(Start(1), ops, SwapTasks(0));
  }
}
