/** Connections from accept to destruction, handed between the base loop and the I/O loops in any interleaving. */
module Lifecycle {
  import opened Wrappers
  import opened ConnectionStates

  datatype Conn = Conn(
    loop: nat,          // getLoop()
    state: State,
    tests: nat,         // other threads in shutdown() that have read kConnected and not yet set the state
    inTime: nat,        // their calls of shutdownInLoop that wait in the loop, queued before connectDestroyed was taken out
    late: nat,          // and those queued after
    ups: nat,           // calls of the connection callback as connected
    downs: nat,         // and as disconnected
    destroys: nat,      // calls of connectDestroyed
    inMap: bool,        // connections_ holds it
    armed: bool,        // its channel asks for events
    inPoller: bool)     // its channel is known to the poller

  datatype Kind = Establish | Remove | Destroy | HalfClose

  // A functor in some loop's queue. It holds the connection, except that the call of shutdownInLoop binds a raw pointer.
  datatype Task = Task(kind: Kind, conn: nat)

  datatype Current = Current(conn: nat, closed: bool)

  datatype Pc =
    | Idle
    | Handling(active: seq<nat>, current: Option<Current>)
    | Running

  datatype Loop = Loop(
    pc: Pc,
    pending: seq<Task>,
    batch: seq<Task>,   // the rest of the swapped vector
    done: seq<Task>)    // functors already run, held until the vector goes

  // Loop 0 is the base loop.
  datatype Server = Server(loops: seq<Loop>, conns: seq<Conn>)

  datatype Op =
    | Accept(loop: nat)                    // newConnection, in the acceptor's handler
    | PollReturn(loop: nat, active: seq<nat>)
    | Begin(loop: nat)                     // handleEvent on the next active channel
    | Close(loop: nat)                     // handleClose, from the read or the close callback
    | EndEvent(loop: nat)
    | SwapTasks(loop: nat)
    | RunTask(loop: nat)
    | EndPass(loop: nat)
    | Shutdown(conn: nat)                  // shutdown() in code that the connection's own loop runs
    | TestElsewhere(conn: nat)             // shutdown() on another thread reads the state
    | SetElsewhere(conn: nat)              // and later sets it

  function Start(loops: nat): Server {
    Server(seq(loops, _ => Loop(Idle, [], [], [])), [])
  }

  // ----- the steps -----

  function Push(s: Server, l: nat, t: Task): (r: Server)
    requires l < |s.loops|
    ensures |r.loops| == |s.loops| && r.conns == s.conns
  {
    s.(loops := s.loops[l := s.loops[l].(pending := s.loops[l].pending + [t])])
  }

  function SetPc(s: Server, l: nat, pc: Pc): (r: Server)
    requires l < |s.loops|
    ensures |r.loops| == |s.loops| && r.conns == s.conns
  {
    s.(loops := s.loops[l := s.loops[l].(pc := pc)])
  }

  function SetConn(s: Server, c: nat, conn: Conn): (r: Server)
    requires c < |s.conns|
    ensures r.loops == s.loops && |r.conns| == |s.conns| && r.conns[c] == conn
  {
    s.(conns := s.conns[c := conn])
  }

  // The head of the batch leaves the queue, and is held until the pass ends.
  function Pop(s: Server, l: nat): (r: Server)
    requires l < |s.loops| && s.loops[l].batch != []
    ensures |r.loops| == |s.loops| && r.conns == s.conns
  {
    var L := s.loops[l];
    s.(loops := s.loops[l := L.(batch := L.batch[1..], done := L.done + [L.batch[0]])])
  }

  function Fresh(l: nat): Conn {
    Conn(l, Connecting, 0, 0, 0, 0, 0, 0, true, false, false)
  }

  // connectEstablished
  function Established(c: Conn): Conn {
    c.(state := Connected, ups := c.ups + 1, armed := true, inPoller := true)
  }

  // handleClose, up to the close callback: disableAll leaves the channel known to the poller.
  function Closed(c: Conn): Conn {
    c.(state := Disconnected, armed := false, downs := c.downs + 1)
  }

  // connectDestroyed
  function Destroyed(c: Conn): Conn {
    var d := if c.state == Connected then c.(state := Disconnected, armed := false, downs := c.downs + 1) else c;
    d.(destroys := d.destroys + 1, armed := false, inPoller := false)
  }

  // shutdownInLoop: calls run in the order in which they were queued.
  function Called(c: Conn): Conn {
    if c.inTime > 0 then c.(inTime := c.inTime - 1)
    else if c.late > 0 then c.(late := c.late - 1)
    else c
  }

  // connectDestroyed is in the vector that the loop works through, or has run.
  predicate TakenOut(s: Server, c: nat)
    requires c < |s.conns| && s.conns[c].loop < |s.loops|
  {
    s.conns[c].destroys > 0 || Task(Destroy, c) in s.loops[s.conns[c].loop].batch
  }

  // The end of shutdown() on another thread.
  function LateSet(s: Server, c: nat): (conn: Conn)
    requires c < |s.conns| && s.conns[c].loop < |s.loops| && s.conns[c].tests > 0
    ensures conn.inTime + conn.late == s.conns[c].inTime + s.conns[c].late + 1
  {
    var d := s.conns[c].(state := Disconnecting, tests := s.conns[c].tests - 1);
    if TakenOut(s, c) then d.(late := d.late + 1) else d.(inTime := d.inTime + 1)
  }

  // removeConnectionInLoop: connectDestroyed is queued even when the loop is the same.
  function RemoveInLoop(s: Server, c: nat): (r: Server)
    requires c < |s.conns| && s.conns[c].loop < |s.loops|
    ensures |r.loops| == |s.loops| && |r.conns| == |s.conns|
  {
    Push(SetConn(s, c, s.conns[c].(inMap := false)), s.conns[c].loop, Task(Destroy, c))
  }

  // removeConnection, called on the connection's own loop: runInLoop runs at once on the base loop.
  function CloseCallback(s: Server, c: nat): Server
    requires c < |s.conns| && s.conns[c].loop < |s.loops|
  {
    if s.conns[c].loop == 0 then RemoveInLoop(s, c) else Push(s, 0, Task(Remove, c))
  }

  function Perform(s: Server, t: Task): Server
    requires t.conn < |s.conns| && s.conns[t.conn].loop < |s.loops|
  {
    match t.kind
    case Establish => SetConn(s, t.conn, Established(s.conns[t.conn]))
    case Remove => RemoveInLoop(s, t.conn)
    case Destroy => SetConn(s, t.conn, Destroyed(s.conns[t.conn]))
    case HalfClose => SetConn(s, t.conn, Called(s.conns[t.conn]))
  }

  predicate Distinct(active: seq<nat>) {
    forall i, j :: 0 <= i < j < |active| ==> active[i] != active[j]
  }

  predicate Legal(s: Server, op: Op) {
    match op
    case Accept(l) => l < |s.loops| && (l == 0 <==> |s.loops| == 1) && s.loops[0].pc.Handling?
    case PollReturn(l, active) =>
      l < |s.loops| && s.loops[l].pc == Idle && Distinct(active)
      && forall i :: 0 <= i < |active| ==>
           active[i] < |s.conns| && s.conns[active[i]].loop == l && s.conns[active[i]].armed
    case Begin(l) => l < |s.loops| && s.loops[l].pc.Handling? && s.loops[l].pc.current == None && s.loops[l].pc.active != []
    case Close(l) =>
      && l < |s.loops| && s.loops[l].pc.Handling? && s.loops[l].pc.current.Some?
      && !s.loops[l].pc.current.value.closed
      && var c := s.loops[l].pc.current.value.conn; c < |s.conns| && s.conns[c].loop < |s.loops|
    case EndEvent(l) => l < |s.loops| && s.loops[l].pc.Handling? && s.loops[l].pc.current.Some?
    case SwapTasks(l) => l < |s.loops| && s.loops[l].pc == Handling([], None)
    case RunTask(l) =>
      && l < |s.loops| && s.loops[l].pc == Running && s.loops[l].batch != []
      && var c := s.loops[l].batch[0].conn; c < |s.conns| && s.conns[c].loop < |s.loops|
    case EndPass(l) => l < |s.loops| && s.loops[l].pc == Running && s.loops[l].batch == []
    case Shutdown(c) => c < |s.conns| && s.conns[c].loop < |s.loops| && s.loops[s.conns[c].loop].pc != Idle
    case TestElsewhere(c) => c < |s.conns|
    case SetElsewhere(c) => c < |s.conns| && s.conns[c].loop < |s.loops| && s.conns[c].tests > 0
  }

  function Step(s: Server, op: Op): Server
    requires Legal(s, op)
  {
    match op
    case Accept(l) =>
      var c := |s.conns|;
      if l == 0 then s.(conns := s.conns + [Established(Fresh(0))])
      else Push(s.(conns := s.conns + [Fresh(l)]), l, Task(Establish, c))
    case PollReturn(l, active) => SetPc(s, l, Handling(active, None))
    case Begin(l) =>
      var pc := s.loops[l].pc;
      SetPc(s, l, Handling(pc.active[1..], Some(Current(pc.active[0], false))))
    case Close(l) =>
      var pc := s.loops[l].pc;
      var c := pc.current.value.conn;
      var t := SetPc(s, l, pc.(current := Some(Current(c, true))));
      CloseCallback(SetConn(t, c, Closed(t.conns[c])), c)
    case EndEvent(l) => SetPc(s, l, s.loops[l].pc.(current := None))
    case SwapTasks(l) => s.(loops := s.loops[l := Loop(Running, [], s.loops[l].pending, [])])
    case RunTask(l) => Perform(Pop(s, l), s.loops[l].batch[0])
    case EndPass(l) => s.(loops := s.loops[l := s.loops[l].(pc := Idle, done := [])])
    case Shutdown(c) =>
      if s.conns[c].state == Connected then SetConn(s, c, s.conns[c].(state := Disconnecting)) else s
    case TestElsewhere(c) =>
      if s.conns[c].state == Connected then SetConn(s, c, s.conns[c].(tests := s.conns[c].tests + 1)) else s
    case SetElsewhere(c) => Push(SetConn(s, c, LateSet(s, c)), s.conns[c].loop, Task(HalfClose, c))
  }

  // ----- how far a connection has come -----

  datatype Stage = Waiting | Live | Closing | Leaving | Gone

  // Told by what has happened to it, not by its state, which another thread may set late.
  function StageOf(c: Conn): Stage {
    if c.ups == 0 then Waiting
    else if c.downs == 0 then Live
    else if c.inMap then Closing
    else if c.destroys == 0 then Leaving
    else Gone
  }

  function Rank(g: Stage): nat {
    match g case Waiting => 0 case Live => 1 case Closing => 2 case Leaving => 3 case Gone => 4
  }

  // What the fields of a connection are at each stage.
  predicate Fits(c: Conn) {
    var g := StageOf(c);
    && c.ups == (if g == Waiting then 0 else 1)
    && c.downs == (if Rank(g) >= 2 then 1 else 0)
    && c.destroys == (if g == Gone then 1 else 0)
    && (c.inMap <==> Rank(g) <= 2)
    && (c.armed <==> g == Live)
    && (c.inPoller <==> g == Live || g == Closing || g == Leaving)
    && (g == Waiting ==> c.state == Connecting && c.tests == 0)
    && (g == Live ==> c.state == Connected || c.state == Disconnecting)
    && (Rank(g) >= 2 ==> c.state == Disconnected || c.state == Disconnecting)
  }

  function AwaitedAt(k: Kind): Stage
    requires k != HalfClose
  {
    match k case Establish => Waiting case Remove => Closing case Destroy => Leaving
  }

  function Home(s: Server, t: Task): nat
    requires t.conn < |s.conns|
  {
    if t.kind == Remove then 0 else s.conns[t.conn].loop
  }

  // How often a functor should be in a loop's queue.
  function Expected(s: Server, l: nat, t: Task): nat {
    if t.conn >= |s.conns| || Home(s, t) != l then 0
    else if t.kind == HalfClose then s.conns[t.conn].inTime + s.conns[t.conn].late
    else if StageOf(s.conns[t.conn]) == AwaitedAt(t.kind) then 1
    else 0
  }

  function Queue(L: Loop): seq<Task> {
    L.batch + L.pending
  }

  ghost predicate Shape(s: Server) {
    && 0 < |s.loops|
    && (forall c :: 0 <= c < |s.conns| ==> s.conns[c].loop < |s.loops| && Fits(s.conns[c]))
    && (forall l :: 0 <= l < |s.loops| && s.loops[l].pc != Running ==> s.loops[l].batch == [] && s.loops[l].done == [])
  }

  // How often it is.
  function Count(s: Server, l: nat, t: Task): nat
    requires l < |s.loops|
  {
    multiset(Queue(s.loops[l]))[t]
  }

  ghost predicate Queued(s: Server) {
    forall l, t :: 0 <= l < |s.loops| ==> Count(s, l, t) == Expected(s, l, t)
  }

  // A channel waiting for its handler belongs to a live connection of that loop.
  ghost predicate Handled(s: Server, l: nat)
    requires l < |s.loops|
  {
    var pc := s.loops[l].pc;
    pc.Handling? ==>
      && Distinct(pc.active)
      && (forall i :: 0 <= i < |pc.active| ==> LiveOn(s, l, pc.active[i]))
      && (pc.current.Some? ==>
            && pc.current.value.conn !in pc.active
            && (!pc.current.value.closed ==> LiveOn(s, l, pc.current.value.conn))
            && (pc.current.value.closed ==> ClosedOn(s, l, pc.current.value.conn)))
  }

  predicate LiveOn(s: Server, l: nat, c: nat) {
    c < |s.conns| && s.conns[c].loop == l && StageOf(s.conns[c]) == Live
  }

  predicate ClosedOn(s: Server, l: nat, c: nat) {
    c < |s.conns| && s.conns[c].loop == l && (StageOf(s.conns[c]) == Closing || StageOf(s.conns[c]) == Leaving)
  }

  ghost predicate Inv(s: Server) {
    Shape(s) && Queued(s) && forall l :: 0 <= l < |s.loops| ==> Handled(s, l)
  }

  // ----- counting -----

  lemma PushCounts(s: Server, l: nat, t: Task)
    requires l < |s.loops|
    ensures forall m, x :: 0 <= m < |s.loops| ==>
              Count(Push(s, l, t), m, x) == Count(s, m, x) + (if m == l && x == t then 1 else 0)
  {
    var L, M := s.loops[l], Push(s, l, t).loops[l];
    assert Queue(M) == Queue(L) + [t];
  }

  lemma PopCounts(s: Server, l: nat)
    requires l < |s.loops| && s.loops[l].batch != []
    ensures forall m, x :: 0 <= m < |s.loops| ==>
              Count(Pop(s, l), m, x) == Count(s, m, x) - (if m == l && x == s.loops[l].batch[0] then 1 else 0)
  {
    var L, M := s.loops[l], Pop(s, l).loops[l];
    assert Queue(L) == [L.batch[0]] + Queue(M);
  }

  lemma SameCounts(s: Server, t: Server)
    requires |s.loops| == |t.loops|
    requires forall l :: 0 <= l < |s.loops| ==> Queue(s.loops[l]) == Queue(t.loops[l])
    ensures forall l, x :: 0 <= l < |s.loops| ==> Count(t, l, x) == Count(s, l, x)
  {
  }

  // The functor at the head of the batch is one its connection awaits, on this loop.
  lemma HeadIsAwaited(s: Server, l: nat)
    requires Inv(s) && l < |s.loops| && s.loops[l].batch != []
    ensures var t := s.loops[l].batch[0];
            && t.conn < |s.conns| && Home(s, t) == l
            && (t.kind != HalfClose ==> StageOf(s.conns[t.conn]) == AwaitedAt(t.kind))
            && (t.kind == HalfClose ==> s.conns[t.conn].inTime + s.conns[t.conn].late > 0)
  {
    var t := s.loops[l].batch[0];
    assert Queue(s.loops[l])[0] == t;
    assert t in multiset(Queue(s.loops[l]));
    assert Count(s, l, t) > 0;
  }

  // ----- every step keeps the invariant -----

  // The connection moves on from stage a: the functor it awaited there is gone, the one it awaits next is queued.
  ghost predicate Moves(s: Server, t: Server, c: nat, conn: Conn) {
    && c < |s.conns| && t.conns == s.conns[c := conn] && |t.loops| == |s.loops|
    && conn.loop == s.conns[c].loop && conn.loop < |s.loops| && Fits(conn)
    && forall l, x: Task :: 0 <= l < |s.loops| && x.conn != c ==> Count(t, l, x) == Count(s, l, x)
  }

  lemma MoveKeeps(s: Server, t: Server, c: nat, conn: Conn)
    requires Shape(s) && Queued(s) && Moves(s, t, c, conn)
    requires forall l, k :: 0 <= l < |s.loops| ==> Count(t, l, Task(k, c)) == Expected(t, l, Task(k, c))
    ensures Queued(t) && forall i :: 0 <= i < |t.conns| ==> t.conns[i].loop < |t.loops| && Fits(t.conns[i])
  {
    hide Count, Fits;
    forall l, x | 0 <= l < |s.loops| ensures Count(t, l, x) == Expected(t, l, x) {
      if x.conn == c { assert x == Task(x.kind, c); }
    }
  }

  // Loops whose handlers were not touched still handle what they did, if connections only moved between other stages.
  lemma HandledKept(s: Server, t: Server, l: nat, c: nat)
    requires l < |s.loops| && l < |t.loops| && Handled(s, l) && t.loops[l].pc == s.loops[l].pc
    requires |s.conns| <= |t.conns|
    requires forall i :: 0 <= i < |s.conns| && i != c ==> t.conns[i] == s.conns[i]
    requires c < |s.conns| ==> t.conns[c].loop == s.conns[c].loop
    requires c < |s.conns| && s.conns[c].loop == l && s.loops[l].pc.Handling? ==>
               StageOf(t.conns[c]) == StageOf(s.conns[c])
               || StageOf(s.conns[c]) == Waiting
               || (StageOf(s.conns[c]) == Closing && StageOf(t.conns[c]) == Leaving)
    ensures Handled(t, l)
  {
    hide StageOf;
  }

  lemma AcceptCounts(s: Server, l: nat)
    requires Legal(s, Accept(l))
    ensures var t := Step(s, Accept(l));
            && |t.loops| == |s.loops|
            && t.conns == s.conns + [if l == 0 then Established(Fresh(0)) else Fresh(l)]
            && forall m, x :: 0 <= m < |s.loops| ==>
                 Count(t, m, x) == Count(s, m, x) + (if l != 0 && m == l && x == Task(Establish, |s.conns|) then 1 else 0)
  {
    var t := Step(s, Accept(l));
    var u := s.(conns := t.conns);
    SameCounts(s, u);
    if l != 0 { PushCounts(u, l, Task(Establish, |s.conns|)); }
    hide Count;
  }

  lemma AcceptStage(l: nat)
    ensures var conn := if l == 0 then Established(Fresh(0)) else Fresh(l);
            conn.loop == l && StageOf(conn) == if l == 0 then Live else Waiting
  {
  }

  lemma AcceptExpected(s: Server, l: nat, m: nat, x: Task)
    requires Shape(s) && Legal(s, Accept(l)) && m < |s.loops|
    ensures var t := Step(s, Accept(l));
            Expected(t, m, x) == Expected(s, m, x) + (if l != 0 && m == l && x == Task(Establish, |s.conns|) then 1 else 0)
  {
    AcceptCounts(s, l);
    AcceptStage(l);
    hide Count, Step, Fits, StageOf, Established, Fresh;
    if x.conn == |s.conns| { assert x == Task(x.kind, |s.conns|); }
  }

  lemma AcceptQueued(s: Server, l: nat)
    requires Shape(s) && Queued(s) && Legal(s, Accept(l))
    ensures Queued(Step(s, Accept(l)))
  {
    hide Count, Step, Fits, StageOf, Established, Fresh, Expected;
    AcceptCounts(s, l);
    var t := Step(s, Accept(l));
    forall m, x | 0 <= m < |t.loops| ensures Count(t, m, x) == Expected(t, m, x) {
      assert Count(s, m, x) == Expected(s, m, x);
      AcceptExpected(s, l, m, x);
    }
  }

  lemma AcceptHandled(s: Server, l: nat, m: nat)
    requires Inv(s) && Legal(s, Accept(l)) && m < |s.loops|
    ensures Handled(Step(s, Accept(l)), m)
  {
    HandledKept(s, Step(s, Accept(l)), m, |s.conns|);
  }

  lemma AcceptKeeps(s: Server, l: nat)
    requires Inv(s) && Legal(s, Accept(l))
    ensures Inv(Step(s, Accept(l)))
  {
    AcceptQueued(s, l);
    forall m | 0 <= m < |s.loops| ensures Handled(Step(s, Accept(l)), m) {
      AcceptHandled(s, l, m);
    }
    hide Queued, Handled;
  }

  // Steps that change neither a connection nor what is queued.
  lemma QuietKeeps(s: Server, t: Server, l: nat)
    requires Inv(s) && l < |s.loops| && |t.loops| == |s.loops| && t.conns == s.conns
    requires forall m :: 0 <= m < |s.loops| && m != l ==> t.loops[m] == s.loops[m]
    requires Queue(t.loops[l]) == Queue(s.loops[l])
    requires t.loops[l].pc != Running ==> t.loops[l].batch == [] && t.loops[l].done == []
    requires Handled(t, l)
    ensures Inv(t)
  {
    hide Count, Fits, Handled, Expected;
    SameCounts(s, t);
    forall m, x | 0 <= m < |t.loops| ensures Count(t, m, x) == Expected(t, m, x) {
      assert Count(s, m, x) == Expected(s, m, x);
      SameExpected(s, t, m, x);
    }
    forall m | 0 <= m < |t.loops| ensures Handled(t, m) {
      if m != l { HandledKept(s, t, m, |s.conns|); }
    }
  }

  lemma SameExpected(s: Server, t: Server, l: nat, x: Task)
    requires t.conns == s.conns
    ensures Expected(t, l, x) == Expected(s, l, x)
  {
    hide StageOf;
  }

  lemma QuietHandled(s: Server, op: Op)
    requires Shape(s) && Legal(s, op)
    requires op.PollReturn? || op.Begin? || op.EndEvent? || op.SwapTasks? || op.EndPass?
    requires Handled(s, op.loop)
    ensures Handled(Step(s, op), op.loop)
  {
    hide Fits;
    match op
    case PollReturn(l, active) => ArmedIsLive(s, l, active);
    case Begin(l) =>
      var active := s.loops[l].pc.active;
      assert active == [active[0]] + active[1..];
    case _ =>
  }

  lemma ArmedIsLive(s: Server, l: nat, active: seq<nat>)
    requires Shape(s) && Legal(s, PollReturn(l, active))
    ensures forall i :: 0 <= i < |active| ==> LiveOn(s, l, active[i])
  {
    forall i | 0 <= i < |active| ensures LiveOn(s, l, active[i]) {
      assert Fits(s.conns[active[i]]);
    }
  }

  lemma QuietSteps(s: Server, op: Op)
    requires Inv(s) && Legal(s, op)
    requires op.PollReturn? || op.Begin? || op.EndEvent? || op.SwapTasks? || op.EndPass?
    ensures Inv(Step(s, op))
  {
    var t := Step(s, op);
    var L := s.loops[op.loop];
    if op.SwapTasks? { assert [] + L.pending == L.pending + []; }
    assert Handled(s, op.loop);
    QuietHandled(s, op);
    QuietKeeps(s, t, op.loop);
  }

  lemma CloseKeeps(s: Server, l: nat)
    requires Inv(s) && Legal(s, Close(l))
    ensures Inv(Step(s, Close(l)))
  {
    var pc := s.loops[l].pc;
    var c := pc.current.value.conn;
    var t := Step(s, Close(l));
    assert Handled(s, l);
    CloseQueued(s, l);
    CloseForm(s, l);
    hide Queued, Count, Step;
    forall m | 0 <= m < |s.loops| ensures Handled(t, m) {
      if m == l { CloseHandled(s, l); } else { HandledKept(s, t, m, c); }
    }
  }

  lemma CloseHandled(s: Server, l: nat)
    requires Shape(s) && Legal(s, Close(l)) && Handled(s, l)
    ensures Handled(Step(s, Close(l)), l)
  {
    CloseForm(s, l);
    CloseStage(s, l, s.loops[l].pc.current.value.conn);
    hide Step, StageOf, Fits;
  }

  // The connection after its handler closed it, and the functor that is queued on the base loop.
  function AfterClose(s: Server, l: nat, c: nat): (r: (Conn, Task))
    requires c < |s.conns|
    ensures r.1.kind != HalfClose && r.0.inTime == s.conns[c].inTime && r.0.late == s.conns[c].late
  {
    var d := Closed(s.conns[c]);
    if d.loop == 0 then (d.(inMap := false), Task(Destroy, c)) else (d, Task(Remove, c))
  }

  lemma CloseForm(s: Server, l: nat)
    requires Legal(s, Close(l))
    ensures var pc := s.loops[l].pc;
            var c := pc.current.value.conn;
            var (conn, x) := AfterClose(s, l, c);
            Step(s, Close(l)) == Push(SetConn(SetPc(s, l, pc.(current := Some(Current(c, true)))), c, conn), 0, x)
  {
    var c := s.loops[l].pc.current.value.conn;
    var d := Closed(s.conns[c]);
    assert s.conns[c := d][c := d.(inMap := false)] == s.conns[c := d.(inMap := false)];
  }

  lemma CloseCounts(s: Server, l: nat)
    requires Legal(s, Close(l)) && 0 < |s.loops|
    ensures var c := s.loops[l].pc.current.value.conn;
            var (conn, x) := AfterClose(s, l, c);
            var t := Step(s, Close(l));
            && |t.loops| == |s.loops| && t.conns == s.conns[c := conn]
            && forall m, y :: 0 <= m < |s.loops| ==> Count(t, m, y) == Count(s, m, y) + (if m == 0 && y == x then 1 else 0)
  {
    var pc := s.loops[l].pc;
    var c := pc.current.value.conn;
    var (conn, x) := AfterClose(s, l, c);
    var v := SetConn(SetPc(s, l, pc.(current := Some(Current(c, true)))), c, conn);
    CloseForm(s, l);
    SameCounts(s, v);
    PushCounts(v, 0, x);
    hide Count, Step, AfterClose;
  }

  lemma CloseQueued(s: Server, l: nat)
    requires Shape(s) && Queued(s) && Legal(s, Close(l)) && LiveOn(s, l, s.loops[l].pc.current.value.conn)
    ensures var t := Step(s, Close(l)); Queued(t) && Shape(t)
  {
    var c := s.loops[l].pc.current.value.conn;
    var (conn, x) := AfterClose(s, l, c);
    CloseCounts(s, l);
    CloseStage(s, l, c);
    ClosePcs(s, l);
    hide Count, Step, StageOf, Fits, AfterClose, Legal;
    NextIsQueued(s, Step(s, Close(l)), c, x);
    MoveKeeps(s, Step(s, Close(l)), c, conn);
  }

  lemma ClosePcs(s: Server, l: nat)
    requires Shape(s) && Legal(s, Close(l))
    ensures var t := Step(s, Close(l));
            && |t.loops| == |s.loops|
            && forall m :: 0 <= m < |t.loops| && t.loops[m].pc != Running ==> t.loops[m].batch == [] && t.loops[m].done == []
  {
    CloseForm(s, l);
    hide Step, Fits, AfterClose;
  }

  lemma CloseStage(s: Server, l: nat, c: nat)
    requires Shape(s) && LiveOn(s, l, c)
    ensures var (d, x) := AfterClose(s, l, c);
            Fits(d) && StageOf(d) == AwaitedAt(x.kind) && d.loop == l && x.conn == c
  {
    assert Fits(s.conns[c]);
  }

  // Only one of a connection's functors is ever queued: replacing it by the next keeps the count right.
  lemma NextIsQueued(s: Server, t: Server, c: nat, x: Task)
    requires Queued(s) && |t.loops| == |s.loops| && c < |s.conns| && c < |t.conns| && x.conn == c
    requires s.conns[c].loop == t.conns[c].loop
    requires s.conns[c].inTime == t.conns[c].inTime && s.conns[c].late == t.conns[c].late
    requires x.kind != HalfClose && AwaitedAt(x.kind) == StageOf(t.conns[c]) && StageOf(s.conns[c]) == Live
    requires forall m, k :: 0 <= m < |s.loops| ==>
               Count(t, m, Task(k, c)) == Count(s, m, Task(k, c)) + (if m == Home(t, x) && k == x.kind then 1 else 0)
    ensures forall m, k :: 0 <= m < |s.loops| ==> Count(t, m, Task(k, c)) == Expected(t, m, Task(k, c))
  {
    hide Count;
    forall m, k | 0 <= m < |s.loops| ensures Count(t, m, Task(k, c)) == Expected(t, m, Task(k, c)) {
      assert Count(s, m, Task(k, c)) == Expected(s, m, Task(k, c));
    }
  }

  // The connection after the functor ran.
  function AfterTask(s: Server, x: Task): Conn
    requires x.conn < |s.conns|
  {
    var c := s.conns[x.conn];
    match x.kind
    case Establish => Established(c)
    case Remove => c.(inMap := false)
    case Destroy => Destroyed(c)
    case HalfClose => Called(c)
  }

  lemma TaskForm(s: Server, l: nat)
    requires Legal(s, RunTask(l))
    ensures var x := s.loops[l].batch[0];
            var v := SetConn(Pop(s, l), x.conn, AfterTask(s, x));
            Step(s, RunTask(l)) == if x.kind == Remove then Push(v, s.conns[x.conn].loop, Task(Destroy, x.conn)) else v
  {
  }

  lemma TaskCounts(s: Server, l: nat)
    requires Legal(s, RunTask(l))
    ensures var x := s.loops[l].batch[0];
            var t := Step(s, RunTask(l));
            && |t.loops| == |s.loops|
            && forall m, y :: 0 <= m < |s.loops| ==>
                 Count(t, m, y) == Count(s, m, y) - (if m == l && y == x then 1 else 0)
                   + (if x.kind == Remove && m == s.conns[x.conn].loop && y == Task(Destroy, x.conn) then 1 else 0)
  {
    var x := s.loops[l].batch[0];
    var u := Pop(s, l);
    var v := SetConn(u, x.conn, AfterTask(s, x));
    TaskForm(s, l);
    PopCounts(s, l);
    SameCounts(u, v);
    if x.kind == Remove { PushCounts(v, s.conns[x.conn].loop, Task(Destroy, x.conn)); }
    hide Count, Step;
  }

  function Reached(k: Kind): Stage
    requires k != HalfClose
  {
    match k case Establish => Live case Remove => Leaving case Destroy => Gone
  }

  lemma TaskStage(s: Server, x: Task)
    requires x.conn < |s.conns| && Fits(s.conns[x.conn])
    requires x.kind != HalfClose ==> StageOf(s.conns[x.conn]) == AwaitedAt(x.kind)
    requires x.kind == HalfClose ==> s.conns[x.conn].inTime + s.conns[x.conn].late > 0
    ensures var (c, d) := (s.conns[x.conn], AfterTask(s, x));
            && Fits(d) && d.loop == c.loop
            && StageOf(d) == (if x.kind == HalfClose then StageOf(c) else Reached(x.kind))
            && d.inTime + d.late == c.inTime + c.late - (if x.kind == HalfClose then 1 else 0)
            && (x.kind == HalfClose ==> d.state == c.state && d.armed == c.armed)
  {
  }

  lemma TaskExpected(s: Server, l: nat, m: nat, k: Kind)
    requires Inv(s) && Legal(s, RunTask(l)) && m < |s.loops|
    ensures var x := Task(k, s.loops[l].batch[0].conn);
            var t := Step(s, RunTask(l));
            |t.loops| == |s.loops| && Count(t, m, x) == Expected(t, m, x)
  {
    hide Count, Step, StageOf, Fits, AfterTask, Handled;
    var x := s.loops[l].batch[0];
    HeadIsAwaited(s, l);
    TaskConns(s, l);
    TaskCounts(s, l);
    HeadStage(s, l);
    assert Count(s, m, Task(k, x.conn)) == Expected(s, m, Task(k, x.conn));
    if k == HalfClose { TaskCalls(s, l, m); } else { TaskStages(s, l, m, k); }
  }

  lemma TaskConns(s: Server, l: nat)
    requires Legal(s, RunTask(l))
    ensures var x := s.loops[l].batch[0];
            Step(s, RunTask(l)).conns == s.conns[x.conn := AfterTask(s, x)]
  {
    TaskForm(s, l);
  }

  lemma HeadStage(s: Server, l: nat)
    requires Inv(s) && Legal(s, RunTask(l))
    ensures var x := s.loops[l].batch[0];
            var (c, d) := (s.conns[x.conn], AfterTask(s, x));
            && Fits(d) && d.loop == c.loop
            && StageOf(d) == (if x.kind == HalfClose then StageOf(c) else Reached(x.kind))
            && d.inTime + d.late == c.inTime + c.late - (if x.kind == HalfClose then 1 else 0)
  {
    HeadIsAwaited(s, l);
    TaskStage(s, s.loops[l].batch[0]);
    hide AfterTask, StageOf, Count;
  }

  // The count of its calls of shutdownInLoop.
  lemma TaskCalls(s: Server, l: nat, m: nat)
    requires Inv(s) && Legal(s, RunTask(l)) && m < |s.loops|
    ensures var x := s.loops[l].batch[0];
            var t := Step(s, RunTask(l));
            x.conn < |t.conns| && Expected(t, m, Task(HalfClose, x.conn))
            == Expected(s, m, Task(HalfClose, x.conn)) - (if m == l && x.kind == HalfClose then 1 else 0)
  {
    hide Count, Step, StageOf, Fits, AfterTask, Handled;
    HeadIsAwaited(s, l);
    TaskConns(s, l);
    HeadStage(s, l);
  }

  // And of the functors that its stages await.
  lemma TaskStages(s: Server, l: nat, m: nat, k: Kind)
    requires Inv(s) && Legal(s, RunTask(l)) && m < |s.loops| && k != HalfClose
    ensures var x := s.loops[l].batch[0];
            var t := Step(s, RunTask(l));
            && x.conn < |s.conns| && x.conn < |t.conns|
            && Expected(t, m, Task(k, x.conn))
               == Expected(s, m, Task(k, x.conn)) - (if m == l && k == x.kind then 1 else 0)
                  + (if x.kind == Remove && m == s.conns[x.conn].loop && k == Destroy then 1 else 0)
  {
    hide Count, Step, StageOf, Fits, AfterTask, Handled;
    HeadIsAwaited(s, l);
    TaskConns(s, l);
    HeadStage(s, l);
  }

  lemma TaskQueued(s: Server, l: nat)
    requires Inv(s) && Legal(s, RunTask(l))
    ensures var t := Step(s, RunTask(l)); Queued(t) && Shape(t)
  {
    var x := s.loops[l].batch[0];
    var t := Step(s, RunTask(l));
    HeadIsAwaited(s, l);
    TaskForm(s, l);
    TaskCounts(s, l);
    TaskStage(s, x);
    forall m, k | 0 <= m < |s.loops| ensures Count(t, m, Task(k, x.conn)) == Expected(t, m, Task(k, x.conn)) {
      TaskExpected(s, l, m, k);
    }
    hide Count, Step, StageOf, Fits, AfterTask, Handled, Expected;
    MoveKeeps(s, t, x.conn, AfterTask(s, x));
  }

  lemma TaskHandled(s: Server, l: nat, m: nat)
    requires Inv(s) && Legal(s, RunTask(l)) && m < |s.loops|
    ensures Handled(Step(s, RunTask(l)), m)
  {
    HeadIsAwaited(s, l);
    var t := Step(s, RunTask(l));
    var c := s.loops[l].batch[0].conn;
    hide Queued, Count, Handled;
    HandledKept(s, t, m, c);
  }

  lemma TaskKeeps(s: Server, l: nat)
    requires Inv(s) && Legal(s, RunTask(l))
    ensures Inv(Step(s, RunTask(l)))
  {
    TaskQueued(s, l);
    forall m | 0 <= m < |s.loops| ensures Handled(Step(s, RunTask(l)), m) {
      TaskHandled(s, l, m);
    }
    hide Queued, Handled, Shape;
  }

  // shutdown() changes the state, or who is about to; on another thread it queues the rest at last.
  lemma ShutdownKeeps(s: Server, op: Op)
    requires Inv(s) && Legal(s, op) && (op.Shutdown? || op.TestElsewhere? || op.SetElsewhere?)
    ensures Inv(Step(s, op))
  {
    hide Count, Step, Fits, Legal, StageOf, Handled, Expected;
    var c, t := op.conn, Step(s, op);
    ShutdownSame(s, op);
    forall m, k | 0 <= m < |s.loops| ensures Count(t, m, Task(k, c)) == Expected(t, m, Task(k, c)) {
      ShutdownExpected(s, op, m, k);
    }
    MoveKeeps(s, t, c, t.conns[c]);
    forall m | 0 <= m < |s.loops| ensures Handled(t, m) {
      HandledKept(s, t, m, c);
    }
  }

  lemma ShutdownExpected(s: Server, op: Op, m: nat, k: Kind)
    requires Inv(s) && Legal(s, op) && (op.Shutdown? || op.TestElsewhere? || op.SetElsewhere?) && m < |s.loops|
    ensures var t := Step(s, op); |t.loops| == |s.loops| && Count(t, m, Task(k, op.conn)) == Expected(t, m, Task(k, op.conn))
  {
    hide Count, Step, Fits, Legal, StageOf, Handled;
    ShutdownSame(s, op);
    assert Count(s, m, Task(k, op.conn)) == Expected(s, m, Task(k, op.conn));
  }

  lemma ShutdownSame(s: Server, op: Op)
    requires Inv(s) && Legal(s, op) && (op.Shutdown? || op.TestElsewhere? || op.SetElsewhere?)
    ensures var c, t := op.conn, Step(s, op);
            var more := if op.SetElsewhere? then 1 else 0;
            && c < |s.conns| && |t.loops| == |s.loops| && |t.conns| == |s.conns| && t.conns == s.conns[c := t.conns[c]]
            && (forall m :: 0 <= m < |s.loops| ==> t.loops[m] == s.loops[m].(pending := t.loops[m].pending))
            && t.conns[c].loop == s.conns[c].loop && Fits(t.conns[c]) && StageOf(t.conns[c]) == StageOf(s.conns[c])
            && t.conns[c].inTime + t.conns[c].late == s.conns[c].inTime + s.conns[c].late + more
            && forall m, x :: 0 <= m < |s.loops| ==>
                 Count(t, m, x) == Count(s, m, x) + (if m == s.conns[c].loop && x == Task(HalfClose, c) then more else 0)
  {
    var c := op.conn;
    assert Fits(s.conns[c]);
    if op.SetElsewhere? {
      var u := SetConn(s, c, LateSet(s, c));
      SameCounts(s, u);
      PushCounts(u, s.conns[c].loop, Task(HalfClose, c));
    } else {
      SameCounts(s, Step(s, op));
    }
    hide Count, Queued, Handled;
  }

  lemma StepKeeps(s: Server, op: Op)
    requires Inv(s) && Legal(s, op)
    ensures Inv(Step(s, op))
  {
    hide Inv, Step;
    match op
    case Accept(l) => AcceptKeeps(s, l);
    case Close(l) => CloseKeeps(s, l);
    case RunTask(l) => TaskKeeps(s, l);
    case Shutdown(c) => ShutdownKeeps(s, op);
    case TestElsewhere(c) => ShutdownKeeps(s, op);
    case SetElsewhere(c) => ShutdownKeeps(s, op);
    case _ => QuietSteps(s, op);
  }
}
