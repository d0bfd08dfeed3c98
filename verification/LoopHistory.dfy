/** What a run of the loop leaves behind, written out from its steps alone. */
module LoopHistories {
  import opened LoopSpec

  // Everything queued, in order, by the loop's thread and by others.
  function Pushes(ops: seq<Op>): seq<Functor> {
    if ops == [] then []
    else
      var n := |ops| - 1;
      Pushes(ops[..n]) + (match ops[n] case PushOwn(f) => [f] case PushOther(f) => [f] case _ => [])
  }

  // What other threads did that a wake-up of theirs follows.
  predicate Asks(op: Op) {
    op.PushOther? || op == QuitOther
  }

  // A write to the descriptor that succeeded.
  predicate Wakes(op: Op) {
    op == WakeOwn(true) || op == WakeOther(true)
  }

  predicate Answers(op: Op) {
    op.WakeOther?
  }

  predicate Starts(op: Op) {
    op == Start
  }

  predicate Reads(op: Op) {
    op == HandleWake
  }

  function Count(ops: seq<Op>, p: Op -> bool): nat {
    if ops == [] then 0
    else Count(ops[..|ops| - 1], p) + (if p(ops[|ops| - 1]) then 1 else 0)
  }

  // What an eventfd holds: the wake-ups since it was last read, on top of what it held at the start.
  function SinceRead(counter: nat, ops: seq<Op>): nat {
    if ops == [] then counter
    else
      var n := |ops| - 1;
      if ops[n] == HandleWake then 0 else SinceRead(counter, ops[..n]) + (if Wakes(ops[n]) then 1 else 0)
  }

  // The loop looked at its flag after a request to quit.
  ghost predicate SeenQuit(ops: seq<Op>) {
    exists i, j :: 0 <= i < j < |ops| && (ops[i] == QuitOwn || ops[i] == QuitOther) && ops[j] == CheckQuit
  }

  predicate AnyQuit(ops: seq<Op>) {
    QuitOwn in ops || QuitOther in ops
  }

  /** In every run: what was queued is what was pushed, in order; each start takes one functor; the flag is set by a request
      and by nothing else, and the loop exits exactly when it looks at the flag after one; every request of another thread
      has its one wake-up, done or on its way; and the descriptor holds the wake-ups not yet read. */
  lemma {:induction false} RunLeaves(s: Loop, ops: seq<Op>)
    requires Starting(s) && LegalRun(s, ops)
    ensures var t := Run(s, ops);
            && t.pipe == s.pipe
            && t.pushed == s.pushed + Pushes(ops) && |t.executed| == Count(ops, Starts)
            && (t.quit <==> AnyQuit(ops))
            && (t.pc == Exited <==> SeenQuit(ops))
            && t.inflight + Count(ops, Answers) == s.inflight + Count(ops, Asks)
            && (s.pipe ==> t.counter + Count(ops, Reads) == s.counter + Count(ops, Wakes))
            && (!s.pipe ==> t.counter == SinceRead(s.counter, ops))
            && (t.pc == Handling(true) ==> t.counter > 0)
  {
    hide Step, Legal, SeenQuit, AnyQuit;
    if ops == [] {
      NoneYet(s);
    } else {
      var n := |ops| - 1;
      var t := Run(s, ops[..n]);
      RunLeaves(s, ops[..n]);
      StepWork(t, ops[n]);
      StepFlag(t, ops[n]);
      StepExits(t, ops[n]);
      StepRequests(t, ops[n]);
      StepCounter(t, ops[n]);
      assert ops[n] == PollReturn(true) ==> t.counter > 0 by { PollSees(t, ops[n]); }
      QuitLast(ops);
      SeenLast(ops);
      assert s.pushed + (Pushes(ops[..n]) + []) == s.pushed + Pushes(ops[..n]);
      assert ops[n].PushOwn? || ops[n].PushOther?
             ==> s.pushed + (Pushes(ops[..n]) + [ops[n].f]) == s.pushed + Pushes(ops[..n]) + [ops[n].f];
    }
  }

  lemma NoneYet(s: Loop)
    requires Starting(s)
    ensures s.pushed + [] == s.pushed && !SeenQuit([]) && !AnyQuit([]) && s.pc == Check && !s.quit && s.executed == []
  {
  }

  lemma QuitLast(ops: seq<Op>)
    requires ops != []
    ensures var n := |ops| - 1; AnyQuit(ops) <==> AnyQuit(ops[..n]) || ops[n] == QuitOwn || ops[n] == QuitOther
  {
    assert ops == ops[..|ops| - 1] + [ops[|ops| - 1]];
  }

  lemma SeenLast(ops: seq<Op>)
    requires ops != []
    ensures var n := |ops| - 1; SeenQuit(ops) <==> SeenQuit(ops[..n]) || (ops[n] == CheckQuit && AnyQuit(ops[..n]))
  {
    var n := |ops| - 1;
    if SeenQuit(ops) {
      var i, j :| 0 <= i < j < |ops| && (ops[i] == QuitOwn || ops[i] == QuitOther) && ops[j] == CheckQuit;
      assert ops[..n][i] == ops[i];
      assert j < n ==> ops[..n][j] == ops[j];
    }
    if SeenQuit(ops[..n]) {
      var i, j :| 0 <= i < j < n && (ops[..n][i] == QuitOwn || ops[..n][i] == QuitOther) && ops[..n][j] == CheckQuit;
      assert ops[i] == ops[..n][i] && ops[j] == CheckQuit;
    }
    if ops[n] == CheckQuit && AnyQuit(ops[..n]) {
      var i :| 0 <= i < n && (ops[..n][i] == QuitOwn || ops[..n][i] == QuitOther);
      assert ops[i] == ops[..n][i] && ops[n] == CheckQuit;
    }
  }

  lemma StepWork(s: Loop, op: Op)
    requires Legal(s, op)
    ensures var t := Step(s, op);
            && t.pushed == s.pushed + (match op case PushOwn(f) => [f] case PushOther(f) => [f] case _ => [])
            && |t.executed| == |s.executed| + (if op == Start then 1 else 0)
  {
    assert s.pushed + [] == s.pushed;
  }

  lemma StepFlag(s: Loop, op: Op)
    requires Legal(s, op)
    ensures var t := Step(s, op);
            t.pipe == s.pipe && (t.quit <==> s.quit || op == QuitOwn || op == QuitOther)
  {
  }

  lemma PollSees(s: Loop, op: Op)
    requires Legal(s, op)
    ensures op == PollReturn(true) ==> s.counter > 0
  {
  }

  lemma StepExits(s: Loop, op: Op)
    requires Legal(s, op)
    ensures Step(s, op).pc == Exited <==> s.pc == Exited || (op == CheckQuit && s.quit)
    ensures op != HandleWake && Step(s, op).pc == Handling(true) ==> s.pc == Handling(true) || op == PollReturn(true)
    ensures op == HandleWake ==> s.pc == Handling(true) && Step(s, op).pc == Handling(false)
  {
    match op
    case CheckQuit =>
    case PollReturn(wake) =>
    case HandleWake =>
    case PushOwn(f) =>
    case PushOther(f) =>
    case WakeOwn(ok) =>
    case WakeOther(ok) =>
    case QuitOther =>
    case _ =>
  }

  lemma StepRequests(s: Loop, op: Op)
    requires Legal(s, op)
    ensures Step(s, op).inflight == s.inflight + (if Asks(op) then 1 else 0) - (if op.WakeOther? then 1 else 0)
  {
    match op
    case CheckQuit =>
    case PollReturn(wake) =>
    case HandleWake =>
    case PushOwn(f) =>
    case PushOther(f) =>
    case WakeOwn(ok) =>
    case WakeOther(ok) =>
    case QuitOther =>
    case _ =>
  }

  lemma StepCounter(s: Loop, op: Op)
    requires Legal(s, op)
    ensures Step(s, op).counter == (if op == HandleWake then (if s.pipe && s.counter > 0 then s.counter - 1 else 0)
                                    else s.counter + (if Wakes(op) then 1 else 0))
  {
  }
}
