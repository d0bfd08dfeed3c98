/** The event loop as an interleaving: its own thread polls, handles and runs what is queued,
    while other threads push work, ask it to quit, and write to the wake-up descriptor. */
module LoopSpec {
  type Functor = int

  datatype Pc =
    | Check                   // at the loop's condition
    | Poll                    // in poll, or about to block there
    | Handling(wake: bool)    // handlers run; wake: the wake-up channel is active and not yet handled
    | Swapping                // doPendingFunctors has raised its flag and not yet swapped
    | Running                 // working through the swapped batch
    | Exited

  datatype Loop = Loop(
    pc: Pc,
    quit: bool,
    calling: bool,            // callingPendingFunctors_
    pending: seq<Functor>,
    batch: seq<Functor>,      // the rest of the swapped vector
    inFunctor: bool,
    ownWake: bool,            // the loop's thread is between its push and its wakeup
    counter: nat,             // what the wake-up descriptor holds
    inflight: nat,            // threads between their push, or their setting of quit, and their wakeup
    pipe: bool,               // a pipe is read one wake-up at a time, an eventfd all at once
    executed: seq<Functor>,
    pushed: seq<Functor>)

  datatype Op =
    | CheckQuit
    | PollReturn(wake: bool)
    | HandleWake
    | StartPending
    | Swap
    | Start
    | End
    | Finish
    | PushOwn(f: Functor)
    | WakeOwn(ok: bool)
    | QuitOwn
    | PushOther(f: Functor)
    | QuitOther
    | WakeOther(ok: bool)

  // A handler or a functor is running on the loop's thread, and not in the middle of queueInLoop.
  predicate InUserCode(s: Loop) {
    (s.pc.Handling? || (s.pc == Running && s.inFunctor)) && !s.ownWake
  }

  // A write to the descriptor fails only when it is full.
  predicate Legal(s: Loop, op: Op) {
    match op
    case CheckQuit => s.pc == Check
    case PollReturn(wake) => s.pc == Poll && (wake ==> s.counter > 0)
    case HandleWake => s.pc == Handling(true)
    case StartPending => s.pc == Handling(false)
    case Swap => s.pc == Swapping
    case Start => s.pc == Running && !s.inFunctor && s.batch != []
    case End => s.pc == Running && s.inFunctor && !s.ownWake
    case Finish => s.pc == Running && !s.inFunctor && s.batch == []
    case PushOwn(f) => InUserCode(s)
    case WakeOwn(ok) => s.ownWake && (!ok ==> s.counter > 0)
    case QuitOwn => InUserCode(s)
    case PushOther(f) => true
    case QuitOther => true
    case WakeOther(ok) => s.inflight > 0 && (!ok ==> s.counter > 0)
  }

  function Written(s: Loop, ok: bool): nat {
    if ok then s.counter + 1 else s.counter
  }

  function Drained(s: Loop): nat {
    if s.pipe && s.counter > 0 then s.counter - 1 else 0
  }

  function Step(s: Loop, op: Op): Loop {
    if !Legal(s, op) then s
    else
    match op
    case CheckQuit => s.(pc := if s.quit then Exited else Poll)
    case PollReturn(wake) => s.(pc := Handling(wake))
    case HandleWake => s.(pc := Handling(false), counter := Drained(s))
    case StartPending => s.(pc := Swapping, calling := true)
    case Swap => s.(pc := Running, batch := s.pending, pending := [])
    case Start => s.(inFunctor := true, executed := s.executed + [s.batch[0]], batch := s.batch[1..])
    case End => s.(inFunctor := false)
    case Finish => s.(pc := Check, calling := false)
    case PushOwn(f) => s.(pending := s.pending + [f], pushed := s.pushed + [f], ownWake := s.calling)
    case WakeOwn(ok) => s.(ownWake := false, counter := Written(s, ok))
    case QuitOwn => s.(quit := true)
    case PushOther(f) => s.(pending := s.pending + [f], pushed := s.pushed + [f], inflight := s.inflight + 1)
    case QuitOther => s.(quit := true, inflight := s.inflight + 1)
    case WakeOther(ok) => s.(inflight := s.inflight - 1, counter := Written(s, ok))
  }

  ghost predicate LegalRun(s: Loop, ops: seq<Op>)
    decreases |ops|, 1
  {
    ops == [] ||
    var n := |ops| - 1;
    LegalRun(s, ops[..n]) && Legal(Run(s, ops[..n]), ops[n])
  }

  function Run(s: Loop, ops: seq<Op>): Loop
    decreases |ops|, 0
  {
    if ops == [] then s
    else
      var n := |ops| - 1;
      Step(Run(s, ops[..n]), ops[n])
  }

  // loop() has just cleared quit_; anything may have been queued or written before.
  predicate Starting(s: Loop) {
    && s.pc == Check && !s.quit && !s.calling && s.batch == [] && !s.inFunctor && !s.ownWake
    && s.executed == [] && s.pushed == s.pending
  }

  // ----- no lost wake-up -----

  predicate Awake(s: Loop) {
    s.counter > 0 || s.inflight > 0
  }

  // About to block with work or a request to quit, the loop is sure to be woken.
  predicate NotLost(s: Loop) {
    s.pc == Poll && (s.pending != [] || s.quit) ==> Awake(s)
  }

  // Pending work will be swapped out before the loop polls, or wakes it when it does.
  predicate Inv(s: Loop) {
    && (s.calling <==> s.pc == Swapping || s.pc == Running)
    && (s.inFunctor ==> s.pc == Running)
    && (s.ownWake ==> s.pc == Running && s.inFunctor)
    && (s.pending != [] && (s.pc == Check || s.pc == Poll || s.pc == Running) ==> Awake(s) || s.ownWake)
    && (s.quit && s.pc == Poll ==> Awake(s))
    && s.executed + (s.batch + s.pending) == s.pushed
    && (s.pc != Running ==> s.batch == [])
  }

  lemma Associate(a: seq<Functor>, b: seq<Functor>, c: seq<Functor>, f: Functor)
    ensures a + (b + (c + [f])) == (a + (b + c)) + [f]
    ensures b != [] ==> (a + [b[0]]) + (b[1..] + c) == a + (b + c)
  {
  }

  lemma StepKeeps(s: Loop, op: Op)
    requires Inv(s) && Legal(s, op)
    ensures Inv(Step(s, op))
  {
    match op
    case PushOwn(f) => Associate(s.executed, s.batch, s.pending, f);
    case PushOther(f) => Associate(s.executed, s.batch, s.pending, f);
    case Start => Associate(s.executed, s.batch, s.pending, 0);
    case _ =>
  }

  lemma {:induction false} RunKeeps(s: Loop, ops: seq<Op>)
    requires Inv(s) && LegalRun(s, ops)
    ensures Inv(Run(s, ops))
  {
    hide Inv;
    if ops != [] {
      var n := |ops| - 1;
      RunKeeps(s, ops[..n]);
      StepKeeps(Run(s, ops[..n]), ops[n]);
    }
  }

  // What was queued before the loop started came with a wake-up.
  predicate QueuedAwake(s: Loop) {
    s.pending == [] || Awake(s)
  }

  /** No interleaving ever loses a wake-up exactly when whatever was queued before the loop started is
      already covered by one; work queued by the loop's own thread before loop() is the exception. */
  lemma NoLostWakeupIff(s: Loop)
    requires Starting(s)
    ensures (forall ops :: LegalRun(s, ops) ==> NotLost(Run(s, ops))) <==> QueuedAwake(s)
  {
    if QueuedAwake(s) {
      forall ops | LegalRun(s, ops) ensures NotLost(Run(s, ops)) {
        RunKeeps(s, ops);
      }
    } else {
      FirstPollBlocks(s);
    }
  }

  lemma FirstPollBlocks(s: Loop)
    requires Starting(s) && !QueuedAwake(s)
    ensures LegalRun(s, [CheckQuit]) && !NotLost(Run(s, [CheckQuit]))
  {
    var ops := [CheckQuit];
    assert ops[..0] == [] && LegalRun(s, []) && Run(s, []) == s;
  }

  /** The same promise, with conservation of the queued work, at every point of every run. */
  lemma RunsConserve(s: Loop, ops: seq<Op>)
    requires Starting(s) && QueuedAwake(s) && LegalRun(s, ops)
    ensures var t := Run(s, ops);
            && t.executed + (t.batch + t.pending) == t.pushed
            && (t.pc == Exited ==> t.executed + t.pending == t.pushed)
  {
    RunKeeps(s, ops);
    var t := Run(s, ops);
    hide Run, LegalRun;
    assert [] + t.pending == t.pending;
  }

  // ----- one pass -----

  lemma StepInPass(s: Loop, op: Op)
    requires op != Swap
    ensures Step(s, op).executed + Step(s, op).batch == s.executed + s.batch
  {
    if op == Start && Legal(s, op) {
      assert (s.executed + [s.batch[0]]) + s.batch[1..] == s.executed + s.batch;
    }
  }

  lemma {:induction false} BatchIsFixed(s: Loop, ops: seq<Op>)
    requires Swap !in ops
    ensures Run(s, ops).executed + Run(s, ops).batch == s.executed + s.batch
  {
    hide Step;
    if ops != [] {
      var n := |ops| - 1;
      assert ops[n] in ops && forall op :: op in ops[..n] ==> op in ops;
      BatchIsFixed(s, ops[..n]);
      StepInPass(Run(s, ops[..n]), ops[n]);
    }
  }

  /** A pass runs exactly the functors pending at its swap, in order and once each, whatever is queued meanwhile;
      and none of what is queued meanwhile is lost. */
  lemma PassRunsTheSwap(s: Loop, ops: seq<Op>)
    requires Inv(s) && s.pc == Swapping && Swap !in ops
    requires LegalRun(Step(s, Swap), ops) && Legal(Run(Step(s, Swap), ops), Finish)
    ensures var t := Step(Run(Step(s, Swap), ops), Finish);
            && t.executed == s.executed + s.pending
            && t.pushed == s.pushed + t.pending
  {
    var u := Step(s, Swap);
    StepKeeps(s, Swap);
    RunKeeps(u, ops);
    BatchIsFixed(u, ops);
    FinishPass(s, Run(u, ops));
  }

  lemma FinishPass(s: Loop, t: Loop)
    requires Inv(s) && s.pc == Swapping && Inv(t) && Legal(t, Finish)
    requires t.executed + t.batch == s.executed + s.pending
    ensures t.executed == s.executed + s.pending && t.pushed == s.pushed + t.pending
  {
    assert t.executed + [] == t.executed && [] + t.pending == t.pending && [] + s.pending == s.pending;
  }

  lemma StepQueues(s: Loop, op: Op, base: seq<Functor>)
    requires op != Swap && s.pushed == base + s.pending
    ensures Step(s, op).pushed == base + Step(s, op).pending
  {
    if op.PushOwn? || op.PushOther? {
      assert base + (s.pending + [op.f]) == base + s.pending + [op.f];
    }
  }

  /** Until the next swap, what is pending is what was queued since the last one. */
  lemma {:induction false} PendingSinceSwap(s: Loop, ops: seq<Op>)
    requires s.pc == Swapping && Swap !in ops
    ensures var t := Run(Step(s, Swap), ops);
            t.pushed == s.pushed + t.pending
  {
    hide Step;
    if ops == [] {
      SwapEmpties(s);
    } else {
      var n := |ops| - 1;
      assert ops[n] in ops && forall op :: op in ops[..n] ==> op in ops;
      PendingSinceSwap(s, ops[..n]);
      StepQueues(Run(Step(s, Swap), ops[..n]), ops[n], s.pushed);
    }
  }

  lemma SwapEmpties(s: Loop)
    requires s.pc == Swapping
    ensures Step(s, Swap).pushed == s.pushed + Step(s, Swap).pending
  {
    assert s.pushed + [] == s.pushed;
  }

  /** What is left unrun when the loop exits was queued after its last swap, and everything queued before was run. */
  lemma ExitLeaves(s: Loop, ops: seq<Op>)
    requires Inv(s) && s.pc == Swapping && Swap !in ops && LegalRun(Step(s, Swap), ops)
    requires Run(Step(s, Swap), ops).pc == Exited
    ensures var t := Run(Step(s, Swap), ops);
            t.executed == s.pushed && t.pushed == s.pushed + t.pending
  {
    hide Step, Run, LegalRun, Legal;
    SwapLegal(s);
    StepKeeps(s, Swap);
    RunKeeps(Step(s, Swap), ops);
    PendingSinceSwap(s, ops);
    var t := Run(Step(s, Swap), ops);
    assert [] + t.pending == t.pending;
    Cancel(t.executed, s.pushed, t.pending);
  }

  lemma SwapLegal(s: Loop)
    requires s.pc == Swapping
    ensures Legal(s, Swap)
  {
  }

  lemma Cancel(a: seq<Functor>, b: seq<Functor>, c: seq<Functor>)
    requires a + c == b + c
    ensures a == b
  {
    assert |a| == |b|;
    assert (a + c)[..|a|] == a && (b + c)[..|b|] == b;
  }

  lemma RunSnoc(s: Loop, ops: seq<Op>, op: Op)
    requires LegalRun(s, ops) && Legal(Run(s, ops), op)
    ensures LegalRun(s, ops + [op]) && Run(s, ops + [op]) == Step(Run(s, ops), op)
  {
    var all := ops + [op];
    assert all[..|all| - 1] == ops;
  }
}
