/** The event loop's own code, run against any behaviour of the handlers, the functors and the other threads. */
module EventLoops {
  import opened LoopSpec

  // What a handler or a functor does to its own loop.
  datatype Action = Queue(f: Functor) | Quit

  // One iteration: whether poll has the wake-up channel ready, and what the handlers before and after it do.
  datatype Round = Round(wake: bool, before: seq<Action>, after: seq<Action>)

  // What the world does just before one step of the loop's own thread: the steps of other threads, and whether the
  // descriptor is full then.
  datatype Moment = Moment(others: seq<Op>, full: bool)

  // ----- the loop thread's share of a run -----

  predicate FromOther(op: Op) {
    op.PushOther? || op.QuitOther? || op.WakeOther?
  }

  // Whether a write went through is the descriptor's doing.
  function Plain(op: Op): Op {
    if op.WakeOwn? then WakeOwn(true) else op
  }

  // What the loop's own thread did, in order.
  function OwnSteps(ops: seq<Op>): seq<Op> {
    if ops == [] then []
    else OwnSteps(ops[..|ops| - 1]) + (if FromOther(ops[|ops| - 1]) then [] else [Plain(ops[|ops| - 1])])
  }

  lemma OwnSnoc(ops: seq<Op>, op: Op)
    ensures OwnSteps(ops + [op]) == OwnSteps(ops) + (if FromOther(op) then [] else [Plain(op)])
  {
    assert (ops + [op])[..|ops|] == ops;
  }

  function ActSteps(actions: seq<Action>, calling: bool): seq<Op> {
    if actions == [] then []
    else ActSteps(actions[..|actions| - 1], calling) + ActionSteps(actions[|actions| - 1], calling)
  }

  function ActionSteps(action: Action, calling: bool): seq<Op> {
    match action
    case Quit => [QuitOwn]
    case Queue(f) => QueueSteps(f, calling)
  }

  // queueInLoop wakes the loop only while it is calling functors.
  function QueueSteps(f: Functor, calling: bool): seq<Op> {
    [PushOwn(f)] + (if calling then [WakeOwn(true)] else [])
  }

  // Running functors number first, first + 1, ..., each with what it does.
  function BatchSteps(first: nat, n: nat, bodies: nat -> seq<Action>): seq<Op> {
    if n == 0 then []
    else BatchSteps(first, n - 1, bodies) + ([Start] + ActSteps(bodies(first + n - 1), true) + [End])
  }

  function PassSteps(first: nat, n: nat, bodies: nat -> seq<Action>): seq<Op> {
    [StartPending, Swap] + BatchSteps(first, n, bodies) + [Finish]
  }

  function HandlerSteps(r: Round, wake: bool): seq<Op> {
    ActSteps(r.before, false) + (if wake then [HandleWake] else []) + ActSteps(r.after, false)
  }

  function Flatten(batches: seq<seq<Functor>>): seq<Functor> {
    if batches == [] then [] else Flatten(batches[..|batches| - 1]) + batches[|batches| - 1]
  }

  // Whole iterations of loop(), the first functor run being number first.
  function LoopSteps(rounds: seq<Round>, wakes: seq<bool>, batches: seq<seq<Functor>>, bodies: nat -> seq<Action>, first: nat): seq<Op>
    requires |batches| == |wakes| <= |rounds|
  {
    if batches == [] then []
    else
      var n := |batches| - 1;
      LoopSteps(rounds, wakes[..n], batches[..n], bodies, first) +
      ([CheckQuit, PollReturn(wakes[n])] + HandlerSteps(rounds[n], wakes[n]) +
       PassSteps(first + |Flatten(batches[..n])|, |batches[n]|, bodies))
  }

  // ----- what others may do at one point -----

  function OtherSteps(s: Loop, steps: seq<Op>): Loop {
    if steps == [] then s
    else
      var t := OtherSteps(s, steps[..|steps| - 1]);
      if FromOther(steps[|steps| - 1]) then Step(t, steps[|steps| - 1]) else t
  }

  // Those of the steps that are possible when their turn comes.
  function Taken(s: Loop, steps: seq<Op>): seq<Op> {
    if steps == [] then []
    else
      var n := |steps| - 1;
      Taken(s, steps[..n]) +
      (if FromOther(steps[n]) && Legal(OtherSteps(s, steps[..n]), steps[n]) then [steps[n]] else [])
  }

  // What other threads never touch.
  function Private(s: Loop): (Pc, bool, seq<Functor>, bool, bool, bool, seq<Functor>) {
    (s.pc, s.calling, s.batch, s.inFunctor, s.ownWake, s.pipe, s.executed)
  }

  // Other threads only add: work, wake-ups, a request to quit.
  predicate Added(s: Loop, t: Loop) {
    Private(t) == Private(s) && s.pending <= t.pending && s.counter <= t.counter && (s.quit ==> t.quit)
  }

  lemma OtherStepAdds(s: Loop, op: Op)
    requires FromOther(op)
    ensures Added(s, Step(s, op))
  {
  }

  lemma {:induction false} OthersAdd(s: Loop, steps: seq<Op>)
    ensures Added(s, OtherSteps(s, steps))
  {
    hide Step;
    if steps != [] {
      var n := |steps| - 1;
      OthersAdd(s, steps[..n]);
      if FromOther(steps[n]) { OtherStepAdds(OtherSteps(s, steps[..n]), steps[n]); }
    }
  }

  // ----- the whole run, from the loop thread's share and the world -----

  // A write fails only when the descriptor is full, and an empty one never is.
  function Actual(op: Op, s: Loop, full: bool): Op {
    if op.WakeOwn? then WakeOwn(!full || s.counter == 0) else op
  }

  // Before each step of its own the loop's thread meets what the world has for that point, and nothing else.
  function Woven(start: Loop, world: nat -> Moment, own: seq<Op>): seq<Op> {
    if own == [] then []
    else
      var n := |own| - 1;
      var before := Woven(start, world, own[..n]);
      var s := Run(start, before);
      before + Taken(s, world(n).others) + [Actual(own[n], OtherSteps(s, world(n).others), world(n).full)]
  }

  lemma WovenSnoc(start: Loop, world: nat -> Moment, own: seq<Op>, op: Op)
    ensures var before := Woven(start, world, own);
            var s := Run(start, before);
            var m := world(|own|);
            Woven(start, world, own + [op]) == before + Taken(s, m.others) + [Actual(op, OtherSteps(s, m.others), m.full)]
  {
    assert (own + [op])[..|own|] == own;
  }

  class EventLoop {
    const pipe: bool
    const world: nat -> Moment
    var tick: nat                      // how far the world has come
    var quit: bool
    var callingPendingFunctors: bool
    var pendingFunctors: seq<Functor>
    var wakeupFd: nat                  // what the descriptor holds
    var inflight: nat                  // other threads about to write to it
    var executed: seq<Functor>         // the functors run so far

    ghost var pc: Pc
    ghost var batch: seq<Functor>
    ghost var inFunctor: bool
    ghost var ownWake: bool
    ghost var pushed: seq<Functor>
    ghost var start: Loop              // the state in which the run began
    ghost var ops: seq<Op>             // everything done since

    ghost function Model(): Loop
      reads `quit, `callingPendingFunctors, `pendingFunctors, `wakeupFd, `inflight
      reads `pc, `batch, `inFunctor, `ownWake, `executed, `pushed
    {
      Loop(pc, quit, callingPendingFunctors, pendingFunctors, batch, inFunctor, ownWake, wakeupFd, inflight, pipe, executed, pushed)
    }

    // The state is the one that the steps taken so far lead to.
    ghost predicate Traced()
      reads `quit, `callingPendingFunctors, `pendingFunctors, `wakeupFd, `inflight
      reads `pc, `batch, `inFunctor, `ownWake, `executed, `pushed, `start, `ops
    {
      LegalRun(start, ops) && Model() == Run(start, ops)
    }

    // And the steps are those of the loop's thread woven into the world as far as it has come.
    ghost predicate Valid()
      reads `quit, `callingPendingFunctors, `pendingFunctors, `wakeupFd, `inflight
      reads `pc, `batch, `inFunctor, `ownWake, `executed, `pushed, `start, `ops, `tick
    {
      Traced() && tick == |OwnSteps(ops)| && ops == Woven(start, world, OwnSteps(ops))
    }

    // The others have taken the steps that the world has for this point, and the loop's thread is about to take its own.
    ghost predicate Met(was: seq<Op>)
      reads `quit, `callingPendingFunctors, `pendingFunctors, `wakeupFd, `inflight
      reads `pc, `batch, `inFunctor, `ownWake, `executed, `pushed, `start, `ops, `tick
    {
      && Traced() && tick == |OwnSteps(was)| + 1 && was == Woven(start, world, OwnSteps(was))
      && ops == was + Taken(Run(start, was), world(tick - 1).others)
      && Model() == OtherSteps(Run(start, was), world(tick - 1).others)
    }

    // The state that the next step of the loop's thread will meet.
    ghost function Next(): Loop
      reads `quit, `callingPendingFunctors, `pendingFunctors, `wakeupFd, `inflight
      reads `pc, `batch, `inFunctor, `ownWake, `executed, `pushed, `tick
    {
      OtherSteps(Model(), world(tick).others)
    }

    // At every point of its life so far the loop was safe from blocking over work it had been given.
    lemma NeverLost(k: nat)
      requires Traced() && Starting(start) && QueuedAwake(start) && k <= |ops|
      ensures NotLost(Run(start, ops[..k]))
      ensures executed + (batch + pendingFunctors) == pushed
    {
      hide LegalRun, Run;
      EveryPoint(start, ops, k);
      EveryPoint(start, ops, |ops|);
      assert ops[..|ops|] == ops;
    }

    constructor (pipe: bool, world: nat -> Moment)
      ensures Valid() && Starting(Model()) && QueuedAwake(Model()) && start == Model() && ops == []
      ensures this.pipe == pipe && this.world == world && tick == 0
    {
      this.pipe, this.world, tick := pipe, world, 0;
      quit, callingPendingFunctors, pendingFunctors, wakeupFd, inflight := false, false, [], 0, 0;
      pc, batch, inFunctor, ownWake, executed, pushed := Check, [], false, false, [], [];
      start := Loop(Check, false, false, [], [], false, false, 0, 0, pipe, [], []);
      ops := [];
    }

    // Records a step that has just been taken.
    ghost method Record(op: Op, before: Loop)
      requires LegalRun(start, ops) && before == Run(start, ops) && Legal(before, op) && Model() == Step(before, op)
      modifies `ops
      ensures Traced() && ops == old(ops) + [op]
      ensures OwnSteps(ops) == OwnSteps(old(ops)) + (if FromOther(op) then [] else [Plain(op)])
    {
      RunSnoc(start, ops, op);
      OwnSnoc(ops, op);
      ops := ops + [op];
    }

    // Records a step of the loop's own thread; was is what had been done before the others moved.
    ghost method Took(op: Op, before: Loop, was: seq<Op>)
      requires !FromOther(op) && LegalRun(start, ops) && before == Run(start, ops)
      requires tick == |OwnSteps(was)| + 1 && was == Woven(start, world, OwnSteps(was))
      requires ops == was + Taken(Run(start, was), world(tick - 1).others)
      requires before == OtherSteps(Run(start, was), world(tick - 1).others)
      requires OwnSteps(ops) == OwnSteps(was)
      requires op == Actual(Plain(op), before, world(tick - 1).full)
      requires Legal(before, op) && Model() == Step(before, op)
      modifies `ops
      ensures Valid() && was <= ops && OwnSteps(ops) == OwnSteps(was) + [Plain(op)]
    {
      hide Run, LegalRun, OwnSteps, Woven, Step, Legal, Taken, OtherSteps;
      WovenSnoc(start, world, OwnSteps(was), Plain(op));
      Record(op, before);
    }

    // ----- other threads -----

    // queueInLoop on another thread, up to its wakeup.
    method PushFromOther(f: Functor)
      requires Traced()
      modifies `pendingFunctors, `inflight, `pushed, `ops
      ensures Traced() && Model() == Step(old(Model()), PushOther(f)) && ops == old(ops) + [PushOther(f)]
      ensures OwnSteps(ops) == OwnSteps(old(ops))
    {
      hide LegalRun, Run, OwnSteps;
      ghost var before := Model();
      pendingFunctors, inflight := pendingFunctors + [f], inflight + 1;
      pushed := pushed + [f];
      Record(PushOther(f), before);
    }

    // quit() on another thread, up to its wakeup.
    method QuitFromOther()
      requires Traced()
      modifies `quit, `inflight, `ops
      ensures Traced() && Model() == Step(old(Model()), QuitOther) && ops == old(ops) + [QuitOther]
      ensures OwnSteps(ops) == OwnSteps(old(ops))
    {
      hide LegalRun, Run, OwnSteps;
      ghost var before := Model();
      quit, inflight := true, inflight + 1;
      Record(QuitOther, before);
    }

    // wakeup() on another thread; impossible when none is about to, or when an empty descriptor should refuse.
    method WakeFromOther(ok: bool)
      requires Traced()
      modifies `wakeupFd, `inflight, `ops
      ensures Traced() && Model() == Step(old(Model()), WakeOther(ok))
      ensures ops == old(ops) + (if Legal(old(Model()), WakeOther(ok)) then [WakeOther(ok)] else [])
      ensures OwnSteps(ops) == OwnSteps(old(ops))
    {
      hide LegalRun, Run, OwnSteps;
      if inflight > 0 && (ok || wakeupFd > 0) {
        ghost var before := Model();
        inflight := inflight - 1;
        wakeupFd := if ok then wakeupFd + 1 else wakeupFd;
        Record(WakeOther(ok), before);
      }
    }

    method OtherStep(op: Op)
      requires Traced() && FromOther(op)
      modifies `pendingFunctors, `quit, `wakeupFd, `inflight, `pushed, `ops
      ensures Traced() && Model() == Step(old(Model()), op)
      ensures ops == old(ops) + (if Legal(old(Model()), op) then [op] else [])
      ensures OwnSteps(ops) == OwnSteps(old(ops))
    {
      hide LegalRun, Run, Step, Traced, OwnSteps, Model;
      match op
      case PushOther(f) => PushFromOther(f);
      case QuitOther => QuitFromOther();
      case WakeOther(ok) => WakeFromOther(ok);
    }

    /** The other threads take the steps that the world has for this point: those that are possible, and no others. */
    method Others()
      requires Valid()
      modifies `tick, `pendingFunctors, `quit, `wakeupFd, `inflight, `pushed, `ops
      ensures Met(old(ops)) && tick == old(tick) + 1 && Model() == old(Next())
      ensures OwnSteps(ops) == OwnSteps(old(ops)) && Added(old(Model()), Model())
    {
      hide LegalRun, Run, Step, Legal, Traced, OwnSteps, Model, Added, Woven;
      TracedState();
      var steps := world(tick).others;
      tick := tick + 1;
      for i := 0 to |steps|
        invariant Traced() && tick == old(tick) + 1 && Model() == OtherSteps(old(Model()), steps[..i])
        invariant ops == old(ops) + Taken(old(Model()), steps[..i]) && OwnSteps(ops) == OwnSteps(old(ops))
      {
        assert steps[..i + 1][..i] == steps[..i];
        if FromOther(steps[i]) {
          OtherStep(steps[i]);
        }
      }
      assert steps[..|steps|] == steps;
      OthersAdd(old(Model()), steps);
    }

    lemma TracedState()
      requires Traced()
      ensures Model() == Run(start, ops)
    {
    }

    // ----- the loop's own thread: each step meets what the world has for that point -----

    /** A write that the descriptor refuses leaves it readable all the same. */
    method Wakeup()
      requires Valid() && ownWake
      modifies `tick, `pendingFunctors, `quit, `wakeupFd, `inflight, `pushed, `ops, `ownWake
      ensures Valid() && old(ops) <= ops && wakeupFd > 0
      ensures var op := WakeOwn(!world(old(tick)).full || old(Next()).counter == 0);
              Model() == Step(old(Next()), op)
      ensures OwnSteps(ops) == OwnSteps(old(ops)) + [WakeOwn(true)]
      ensures Private(Model()) == Private(old(Model())).(4 := false)
      ensures old(pendingFunctors) <= pendingFunctors && old(wakeupFd) <= wakeupFd && (old(quit) ==> quit)
    {
      hide LegalRun, Run, OwnSteps, Woven, OtherSteps, Taken;
      Others();
      ghost var before := Model();
      var ok := !world(tick - 1).full || wakeupFd == 0;
      if ok {
        wakeupFd := wakeupFd + 1;
      }
      ownWake := false;
      Took(WakeOwn(ok), before, old(ops));
    }

    method Push(f: Functor)
      requires Valid() && InUserCode(Model())
      modifies `tick, `pendingFunctors, `quit, `wakeupFd, `inflight, `pushed, `ops, `ownWake
      ensures Valid() && old(ops) <= ops && Model() == Step(old(Next()), PushOwn(f))
      ensures OwnSteps(ops) == OwnSteps(old(ops)) + [PushOwn(f)]
      ensures Private(Model()) == Private(old(Model())).(4 := callingPendingFunctors)
      ensures old(pendingFunctors) <= pendingFunctors && f in pendingFunctors && old(wakeupFd) <= wakeupFd && (old(quit) ==> quit)
    {
      hide LegalRun, Run, OwnSteps, Woven, OtherSteps, Taken;
      Others();
      ghost var before := Model();
      pendingFunctors := pendingFunctors + [f];
      pushed, ownWake := pushed + [f], callingPendingFunctors;
      Took(PushOwn(f), before, old(ops));
    }

    /** The functor is pushed, and a wake-up follows exactly while functors are being called. */
    method QueueInLoop(f: Functor)
      requires Valid() && InUserCode(Model())
      modifies `tick, `pendingFunctors, `quit, `wakeupFd, `inflight, `pushed, `ops, `ownWake
      ensures Valid() && old(ops) <= ops
      ensures OwnSteps(ops) == OwnSteps(old(ops)) + QueueSteps(f, callingPendingFunctors)
      ensures Private(Model()) == Private(old(Model())) && (old(quit) ==> quit)
      ensures old(pendingFunctors) <= pendingFunctors && f in pendingFunctors
      ensures old(wakeupFd) <= wakeupFd && (callingPendingFunctors ==> wakeupFd > 0)
    {
      hide LegalRun, Run, OwnSteps, Valid, Step;
      Push(f);
      if callingPendingFunctors {
        Wakeup();
      }
    }

    method QuitInLoop()
      requires Valid() && InUserCode(Model())
      modifies `tick, `pendingFunctors, `quit, `wakeupFd, `inflight, `pushed, `ops
      ensures Valid() && old(ops) <= ops && quit && Model() == Step(old(Next()), QuitOwn)
      ensures OwnSteps(ops) == OwnSteps(old(ops)) + [QuitOwn]
      ensures Private(Model()) == Private(old(Model()))
      ensures old(pendingFunctors) <= pendingFunctors && old(wakeupFd) <= wakeupFd
    {
      hide LegalRun, Run, OwnSteps, Woven, OtherSteps, Taken;
      Others();
      ghost var before := Model();
      quit := true;
      Took(QuitOwn, before, old(ops));
    }

    method Do(action: Action)
      requires Valid() && InUserCode(Model())
      modifies `tick, `pendingFunctors, `quit, `wakeupFd, `inflight, `pushed, `ops, `ownWake
      ensures Valid() && old(ops) <= ops
      ensures OwnSteps(ops) == OwnSteps(old(ops)) + ActionSteps(action, callingPendingFunctors)
      ensures Private(Model()) == Private(old(Model())) && (old(quit) || action == Quit ==> quit)
      ensures old(pendingFunctors) <= pendingFunctors && old(wakeupFd) <= wakeupFd
    {
      hide LegalRun, Run, OwnSteps, Valid, QueueSteps, Step;
      match action
      case Queue(f) => QueueInLoop(f);
      case Quit => QuitInLoop();
    }

    /** What a handler or a functor does, one action after the other. */
    method Act(actions: seq<Action>)
      requires Valid() && InUserCode(Model())
      modifies `tick, `pendingFunctors, `quit, `wakeupFd, `inflight, `pushed, `ops, `ownWake
      ensures Valid() && old(ops) <= ops
      ensures OwnSteps(ops) == OwnSteps(old(ops)) + ActSteps(actions, callingPendingFunctors)
      ensures Private(Model()) == Private(old(Model())) && (old(quit) || Quit in actions ==> quit)
      ensures old(pendingFunctors) <= pendingFunctors && old(wakeupFd) <= wakeupFd
    {
      hide LegalRun, Run, OwnSteps, Valid, Step, ActionSteps;
      for i := 0 to |actions|
        invariant Valid() && old(ops) <= ops
        invariant OwnSteps(ops) == OwnSteps(old(ops)) + ActSteps(actions[..i], callingPendingFunctors)
        invariant Private(Model()) == Private(old(Model())) && (old(quit) || Quit in actions[..i] ==> quit)
        invariant old(pendingFunctors) <= pendingFunctors && old(wakeupFd) <= wakeupFd
      {
        assert actions[..i + 1][..i] == actions[..i];
        Do(actions[i]);
      }
      assert actions[..|actions|] == actions;
    }

    /** An eventfd is emptied, a pipe gives up one wake-up. */
    method HandleRead()
      requires Valid() && pc == Handling(true)
      modifies `tick, `pendingFunctors, `quit, `wakeupFd, `inflight, `pushed, `ops, `pc
      ensures Valid() && old(ops) <= ops && Model() == Step(old(Next()), HandleWake)
      ensures wakeupFd == if pipe && old(Next()).counter > 0 then old(Next()).counter - 1 else 0
      ensures OwnSteps(ops) == OwnSteps(old(ops)) + [HandleWake]
      ensures Private(Model()) == Private(old(Model())).(0 := Handling(false))
      ensures old(pendingFunctors) <= pendingFunctors && (old(quit) ==> quit)
    {
      hide LegalRun, Run, OwnSteps, Woven, OtherSteps, Taken;
      Others();
      ghost var before := Model();
      wakeupFd := if pipe && wakeupFd > 0 then wakeupFd - 1 else 0;
      pc := Handling(false);
      Took(HandleWake, before, old(ops));
    }

    method RaiseFlag()
      requires Valid() && pc == Handling(false)
      modifies `tick, `pendingFunctors, `quit, `wakeupFd, `inflight, `pushed, `ops, `callingPendingFunctors, `pc
      ensures Valid() && old(ops) <= ops && Model() == Step(old(Next()), StartPending)
      ensures OwnSteps(ops) == OwnSteps(old(ops)) + [StartPending]
      ensures Private(Model()) == Private(old(Model())).(0 := Swapping, 1 := true) && old(pendingFunctors) <= pendingFunctors
    {
      hide LegalRun, Run, OwnSteps, Woven, OtherSteps, Taken;
      Others();
      ghost var before := Model();
      callingPendingFunctors := true;
      pc := Swapping;
      Took(StartPending, before, old(ops));
    }

    method SwapFunctors() returns (functors: seq<Functor>)
      requires Valid() && pc == Swapping
      modifies `tick, `pendingFunctors, `quit, `wakeupFd, `inflight, `pushed, `ops, `batch, `pc
      ensures Valid() && old(ops) <= ops && Model() == Step(old(Next()), Op.Swap)
      ensures OwnSteps(ops) == OwnSteps(old(ops)) + [Op.Swap]
      ensures Private(Model()) == Private(old(Model())).(0 := Running, 2 := functors) && old(pendingFunctors) <= functors
    {
      hide LegalRun, Run, OwnSteps, Woven, OtherSteps, Taken;
      Others();
      ghost var before := Model();
      functors := pendingFunctors;
      pendingFunctors := [];
      pc, batch := Running, functors;
      Took(Op.Swap, before, old(ops));
    }

    method LowerFlag()
      requires Valid() && pc == Running && !inFunctor && batch == []
      modifies `tick, `pendingFunctors, `quit, `wakeupFd, `inflight, `pushed, `ops, `callingPendingFunctors, `pc
      ensures Valid() && old(ops) <= ops && Model() == Step(old(Next()), Finish)
      ensures OwnSteps(ops) == OwnSteps(old(ops)) + [Finish]
      ensures Private(Model()) == Private(old(Model())).(0 := Check, 1 := false)
    {
      hide LegalRun, Run, OwnSteps, Woven, OtherSteps, Taken;
      Others();
      ghost var before := Model();
      callingPendingFunctors := false;
      pc := Check;
      Took(Finish, before, old(ops));
    }

    method Enter(f: Functor)
      requires Valid() && pc == Running && !inFunctor && batch != [] && batch[0] == f
      modifies `tick, `pendingFunctors, `quit, `wakeupFd, `inflight, `pushed, `ops, `inFunctor, `executed, `batch
      ensures Valid() && old(ops) <= ops && Model() == Step(old(Next()), Start)
      ensures OwnSteps(ops) == OwnSteps(old(ops)) + [Start]
      ensures Private(Model()) == Private(old(Model())).(2 := old(batch)[1..], 3 := true, 6 := old(executed) + [f])
    {
      hide LegalRun, Run, OwnSteps, Woven, OtherSteps, Taken;
      Others();
      ghost var before := Model();
      inFunctor, executed, batch := true, executed + [f], batch[1..];
      Took(Start, before, old(ops));
    }

    method Leave()
      requires Valid() && pc == Running && inFunctor && !ownWake
      modifies `tick, `pendingFunctors, `quit, `wakeupFd, `inflight, `pushed, `ops, `inFunctor
      ensures Valid() && old(ops) <= ops && Model() == Step(old(Next()), End)
      ensures OwnSteps(ops) == OwnSteps(old(ops)) + [End]
      ensures Private(Model()) == Private(old(Model())).(3 := false)
    {
      hide LegalRun, Run, OwnSteps, Woven, OtherSteps, Taken;
      Others();
      ghost var before := Model();
      inFunctor := false;
      Took(End, before, old(ops));
    }

    // Between two functors of a pass.
    ghost predicate BetweenFunctors()
      reads `pc, `inFunctor, `ownWake, `callingPendingFunctors
    {
      pc == Running && !inFunctor && !ownWake && callingPendingFunctors
    }

    // At the loop's condition.
    ghost predicate AtCondition()
      reads `pc, `inFunctor, `ownWake, `callingPendingFunctors, `batch
    {
      pc == Check && !inFunctor && !ownWake && !callingPendingFunctors && batch == []
    }

    method RunFunctor(f: Functor, body: seq<Action>)
      requires Valid() && BetweenFunctors() && batch != [] && batch[0] == f
      modifies `tick, `pendingFunctors, `quit, `wakeupFd, `inflight, `pushed, `ownWake, `ops, `inFunctor, `executed, `batch
      ensures Valid() && BetweenFunctors() && old(ops) <= ops
      ensures OwnSteps(ops) == OwnSteps(old(ops)) + ([Start] + ActSteps(body, true) + [End])
      ensures batch == old(batch)[1..] && executed == old(executed) + [f]
    {
      hide LegalRun, Run, OwnSteps, Valid, ActSteps, Step;
      Enter(f);
      Act(body);
      Leave();
    }

    method RunAll(functors: seq<Functor>, bodies: nat -> seq<Action>)
      requires Valid() && BetweenFunctors() && batch == functors
      modifies `tick, `pendingFunctors, `quit, `wakeupFd, `inflight, `pushed, `ownWake, `ops, `inFunctor, `executed, `batch
      ensures Valid() && BetweenFunctors() && old(ops) <= ops
      ensures OwnSteps(ops) == OwnSteps(old(ops)) + BatchSteps(|old(executed)|, |functors|, bodies)
      ensures batch == [] && executed == old(executed) + functors
    {
      hide LegalRun, Run, OwnSteps, Valid, ActSteps;
      var first := |executed|;
      for i := 0 to |functors|
        invariant Valid() && BetweenFunctors() && old(ops) <= ops
        invariant OwnSteps(ops) == OwnSteps(old(ops)) + BatchSteps(first, i, bodies)
        invariant batch == functors[i..] && executed == old(executed) + functors[..i]
      {
        RunFunctor(functors[i], bodies(first + i));
        assert functors[..i + 1] == functors[..i] + [functors[i]];
      }
      assert functors[..|functors|] == functors;
    }

    /** Everything pending at the swap is run, in order; what is queued meanwhile stays pending. */
    method DoPendingFunctors(bodies: nat -> seq<Action>) returns (ghost functors: seq<Functor>)
      requires Valid() && pc == Handling(false) && !ownWake && !inFunctor && batch == []
      modifies this
      ensures Valid() && AtCondition() && start == old(start) && old(ops) <= ops
      ensures OwnSteps(ops) == OwnSteps(old(ops)) + PassSteps(|old(executed)|, |functors|, bodies)
      ensures executed == old(executed) + functors && old(pendingFunctors) <= functors
    {
      hide LegalRun, Run, OwnSteps, Valid, BatchSteps, Step, Model;
      var swapped := TakeBatch();
      functors := swapped;
      RunAll(swapped, bodies);
      FinishPass();
    }

    // The flag goes up before the swap, so nothing queued by a functor goes without a wake-up.
    method TakeBatch() returns (functors: seq<Functor>)
      requires Valid() && pc == Handling(false) && !ownWake && !inFunctor
      modifies `tick, `pendingFunctors, `quit, `wakeupFd, `inflight, `pushed, `ops, `callingPendingFunctors, `pc, `batch
      ensures Valid() && BetweenFunctors() && old(ops) <= ops
      ensures OwnSteps(ops) == OwnSteps(old(ops)) + [StartPending, Op.Swap]
      ensures batch == functors && old(pendingFunctors) <= functors
    {
      hide LegalRun, Run, OwnSteps, Valid;
      RaiseFlag();
      functors := SwapFunctors();
    }

    method FinishPass()
      requires Valid() && BetweenFunctors() && batch == []
      modifies `tick, `pendingFunctors, `quit, `wakeupFd, `inflight, `pushed, `ops, `callingPendingFunctors, `pc
      ensures Valid() && AtCondition() && old(ops) <= ops
      ensures OwnSteps(ops) == OwnSteps(old(ops)) + [Finish]
    {
      hide LegalRun, Run, OwnSteps, Valid;
      LowerFlag();
    }

    method TestQuit()
      requires Valid() && pc == Check
      modifies `tick, `pendingFunctors, `quit, `wakeupFd, `inflight, `pushed, `ops, `pc
      ensures Valid() && old(ops) <= ops && Model() == Step(old(Next()), CheckQuit)
      ensures OwnSteps(ops) == OwnSteps(old(ops)) + [CheckQuit]
      ensures Private(Model()) == Private(old(Model())).(0 := if quit then Exited else Poll)
      ensures old(pendingFunctors) <= pendingFunctors
    {
      hide LegalRun, Run, OwnSteps, Woven, OtherSteps, Taken;
      Others();
      ghost var before := Model();
      pc := if quit then Exited else Poll;
      Took(CheckQuit, before, old(ops));
    }

    // poll reports the wake-up channel only when it can be read.
    method PollOnce(ready: bool) returns (wake: bool)
      requires Valid() && pc == Poll
      modifies `tick, `pendingFunctors, `quit, `wakeupFd, `inflight, `pushed, `ops, `pc
      ensures Valid() && old(ops) <= ops && wake == (ready && old(Next()).counter > 0)
      ensures Model() == Step(old(Next()), PollReturn(wake))
      ensures OwnSteps(ops) == OwnSteps(old(ops)) + [PollReturn(wake)]
      ensures Private(Model()) == Private(old(Model())).(0 := Handling(wake)) && old(pendingFunctors) <= pendingFunctors
    {
      hide LegalRun, Run, OwnSteps, Woven, OtherSteps, Taken;
      Others();
      ghost var before := Model();
      wake := ready && wakeupFd > 0;
      pc := Handling(wake);
      Took(PollReturn(wake), before, old(ops));
    }

    method HandleEvents(r: Round, wake: bool)
      requires Valid() && pc == Handling(wake) && !ownWake && !inFunctor && !callingPendingFunctors
      modifies `tick, `pendingFunctors, `quit, `wakeupFd, `inflight, `pushed, `ownWake, `ops, `pc
      ensures Valid() && pc == Handling(false) && !ownWake && old(ops) <= ops
      ensures OwnSteps(ops) == OwnSteps(old(ops)) + HandlerSteps(r, wake)
      ensures old(pendingFunctors) <= pendingFunctors && (Quit in r.before + r.after ==> quit)
    {
      hide LegalRun, Run, OwnSteps, Valid, ActSteps;
      Act(r.before);
      if wake {
        HandleRead();
      }
      Act(r.after);
    }

    // One iteration, after the condition let it through.
    method RunRound(r: Round, bodies: nat -> seq<Action>) returns (ghost wake: bool, ghost functors: seq<Functor>)
      requires Valid() && pc == Poll && !ownWake && !inFunctor && !callingPendingFunctors && batch == []
      modifies this
      ensures Valid() && AtCondition() && start == old(start) && old(ops) <= ops
      ensures OwnSteps(ops) == OwnSteps(old(ops)) +
                ([PollReturn(wake)] + HandlerSteps(r, wake) + PassSteps(|old(executed)|, |functors|, bodies))
      ensures (wake ==> r.wake) && executed == old(executed) + functors && old(pendingFunctors) <= functors
    {
      hide LegalRun, Run, OwnSteps, Valid, HandlerSteps, PassSteps;
      var w := PollOnce(r.wake);
      wake := w;
      HandleEvents(r, w);
      functors := DoPendingFunctors(bodies);
    }

    /** loop(): whole iterations, as many as there are rounds unless it is asked to quit before; each tests the condition,
        polls, runs the handlers and makes one pass, and the last test lets it exit or meets a poll for which there is
        no round. */
    method RunLoop(rounds: seq<Round>, bodies: nat -> seq<Action>) returns (ghost wakes: seq<bool>, ghost batches: seq<seq<Functor>>)
      requires Valid() && AtCondition()
      modifies this
      ensures Valid() && start == old(start) && old(ops) <= ops
      ensures |batches| == |wakes| <= |rounds|
      ensures OwnSteps(ops) == OwnSteps(old(ops)) + LoopSteps(rounds, wakes, batches, bodies, |old(executed)|) + [CheckQuit]
      ensures executed == old(executed) + Flatten(batches)
      ensures if quit then pc == Exited else pc == Poll && |batches| == |rounds|
    {
      hide LegalRun, Run, OwnSteps, Valid, HandlerSteps, PassSteps, LoopSteps, Flatten;
      wakes, batches := [], [];
      LoopNone(rounds, bodies, |executed|);
      var i := 0;
      while true
        invariant i <= |rounds| && |batches| == |wakes| == i
        invariant Valid() && AtCondition() && start == old(start) && old(ops) <= ops
        invariant OwnSteps(ops) == OwnSteps(old(ops)) + LoopSteps(rounds, wakes, batches, bodies, |old(executed)|)
        invariant executed == old(executed) + Flatten(batches)
        decreases |rounds| - i
      {
        TestQuit();
        if quit || i == |rounds| {
          return;
        }
        ghost var wake, functors := RunRound(rounds[i], bodies);
        LoopLonger(rounds, wakes, batches, bodies, |old(executed)|, wake, functors);
        wakes, batches := wakes + [wake], batches + [functors];
        i := i + 1;
      }
    }
  }

  lemma LoopNone(rounds: seq<Round>, bodies: nat -> seq<Action>, first: nat)
    ensures LoopSteps(rounds, [], [], bodies, first) == [] && Flatten([]) == []
  {
  }

  lemma LoopLonger(rounds: seq<Round>, wakes: seq<bool>, batches: seq<seq<Functor>>, bodies: nat -> seq<Action>, first: nat,
                   wake: bool, functors: seq<Functor>)
    requires |batches| == |wakes| < |rounds|
    ensures Flatten(batches + [functors]) == Flatten(batches) + functors
    ensures LoopSteps(rounds, wakes + [wake], batches + [functors], bodies, first)
            == LoopSteps(rounds, wakes, batches, bodies, first) + [CheckQuit]
               + ([PollReturn(wake)] + HandlerSteps(rounds[|batches|], wake)
                  + PassSteps(first + |Flatten(batches)|, |functors|, bodies))
  {
    hide HandlerSteps, PassSteps;
    assert (wakes + [wake])[..|wakes|] == wakes && (batches + [functors])[..|batches|] == batches;
  }

  /** Whatever the handlers, the functors and the other threads do: at every point of the run no wake-up is lost,
      and what was run, what the pass still holds and what is pending is what was queued, in order. */
  lemma EveryPoint(start: Loop, ops: seq<Op>, k: nat)
    requires Starting(start) && QueuedAwake(start) && LegalRun(start, ops) && k <= |ops|
    ensures var s := Run(start, ops[..k]);
            NotLost(s) && s.executed + (s.batch + s.pending) == s.pushed
  {
    LoopPrefixLegal(start, ops, k);
    hide LegalRun, Run;
    RunKeeps(start, ops[..k]);
  }

  lemma {:induction false} LoopPrefixLegal(start: Loop, ops: seq<Op>, k: nat)
    requires LegalRun(start, ops) && k <= |ops|
    ensures LegalRun(start, ops[..k])
  {
    if k < |ops| {
      LoopPrefixLegal(start, ops[..|ops| - 1], k);
      assert ops[..|ops| - 1][..k] == ops[..k];
    } else {
      assert ops[..k] == ops;
    }
  }
}
