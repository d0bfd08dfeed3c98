/** The server's own code: its map of connections by name, the choice of loop, and what it posts to the loops. */
module TcpServers {
  import opened Wrappers
  import opened Decimals
  import opened Lifecycle
  import opened LifecycleTheorems

  // The name of the connection made when nextConnId_ is id.
  function ConnName(name: string, ipPort: string, id: nat): string {
    name + "-" + ipPort + "#" + Decimal(id)
  }

  /** No two connections of a server share a name, so erasing by name erases one connection. */
  lemma ConnNameInjective(name: string, ipPort: string, i: nat, j: nat)
    requires ConnName(name, ipPort, i) == ConnName(name, ipPort, j)
    ensures i == j
  {
    var front := name + "-" + ipPort + "#";
    assert ConnName(name, ipPort, i)[|front|..] == Decimal(i);
    assert ConnName(name, ipPort, j)[|front|..] == Decimal(j);
    DecimalInjective(i, j);
  }

  class TcpServer {
    const name: string
    const ipPort: string
    var connections: map<string, nat>    // connections_, from names to connection numbers
    var nextConnId: nat
    var next: nat                // the pool's next_, among the I/O loops 1, 2, ...
    var loops: seq<Loop>
    var conns: seq<Conn>         // every connection made, number 0 first

    ghost function Model(): Server
      reads this
    {
      Server(loops, conns)
    }

    ghost predicate Valid()
      reads this
    {
      && Inv(Model())
      && nextConnId == |conns| + 1
      && Mapped()
      && (|loops| > 1 ==> next < |loops| - 1)
    }

    // The name of connection c.
    function NameOf(c: nat): string {
      ConnName(name, ipPort, c + 1)
    }

    // The map holds the connections that were not erased, each under its own name.
    ghost predicate Mapped()
      reads `connections, `conns
    {
      && (forall k :: k in connections ==> connections[k] < |conns| && k == NameOf(connections[k]))
      && (forall c: nat :: c < |conns| ==> (conns[c].inMap <==> NameOf(c) in connections))
    }

    constructor (name: string, ipPort: string, threads: nat)
      ensures Valid() && Model() == Start(threads + 1)
    {
      this.name, this.ipPort := name, ipPort;
      connections, nextConnId, next := map[], 1, 0;
      loops, conns := seq(threads + 1, _ => Loop(Idle, [], [], [])), [];
      new;
      StartKeeps(threads + 1);
      assert loops == Start(threads + 1).loops;
    }

    // The base loop when there are no others, else the I/O loops in turn.
    method GetNextLoop() returns (l: nat)
      requires Valid()
      modifies `next
      ensures Valid()
      ensures |loops| == 1 ==> l == 0
      ensures |loops| > 1 ==> l == 1 + old(next) && next == if old(next) + 2 == |loops| then 0 else old(next) + 1
    {
      l := 0;
      if |loops| > 1 {
        l := 1 + next;
        next := next + 1;
        if next >= |loops| - 1 {
          next := 0;
        }
      }
    }

    // runInLoop, called on the base loop's thread: elsewhere the functor is queued.
    method NewConnection() returns (l: nat, c: nat)
      requires Valid() && loops[0].pc.Handling?
      modifies this
      ensures Valid() && Legal(old(Model()), Accept(l)) && Model() == Step(old(Model()), Accept(l))
      ensures c == old(|conns|) && NameOf(c) !in old(connections) && connections == old(connections)[NameOf(c) := c]
      ensures |loops| > 1 ==> l == 1 + old(next)
    {
      hide Inv, Mapped, ConnName, NameOf, Push, Established, Fresh;
      ghost var s := Model();
      InvBounds(s);
      l := GetNextLoop();
      StepKeeps(s, Accept(l));
      NewFields(l);
      c := Enter(if l == 0 then Established(Fresh(l)) else Fresh(l));
      if l != 0 {
        QueueInLoop(l, Task(Establish, c));
      }
    }

    // The connection is made, numbered, and put into the map under its name.
    method Enter(conn: Conn) returns (c: nat)
      requires Mapped() && nextConnId == |conns| + 1 && conn.inMap
      modifies `nextConnId, `connections, `conns
      ensures Mapped() && nextConnId == |conns| + 1 && c == old(|conns|) && conns == old(conns) + [conn]
      ensures Model() == old(Model()).(conns := old(Model()).conns + [conn])
      ensures NameOf(c) !in old(connections) && connections == old(connections)[NameOf(c) := c]
    {
      NewName(|conns|);
      hide ConnName;
      c := |conns|;
      var connName := ConnName(name, ipPort, nextConnId);
      nextConnId := nextConnId + 1;
      connections := connections[connName := c];
      conns := conns + [conn];
    }

    // The next name is nobody's, and differs from that of every connection made.
    lemma NewName(c: nat)
      requires Mapped() && c == |conns|
      ensures NameOf(c) !in connections && forall i: nat :: i < |conns| ==> NameOf(i) != NameOf(c)
    {
      forall i: nat | i < |conns| ensures NameOf(i) != NameOf(c) {
        if NameOf(i) == NameOf(c) { ConnNameInjective(name, ipPort, i + 1, c + 1); }
      }
    }

    lemma OtherNames(c: nat)
      ensures forall i: nat :: i != c ==> NameOf(i) != NameOf(c)
    {
      forall i: nat | i != c ensures NameOf(i) != NameOf(c) {
        if NameOf(i) == NameOf(c) { ConnNameInjective(name, ipPort, i + 1, c + 1); }
      }
    }

    method QueueInLoop(l: nat, t: Task)
      requires l < |loops|
      modifies `loops
      ensures Model() == Push(old(Model()), l, t)
    {
      loops := loops[l := loops[l].(pending := loops[l].pending + [t])];
    }

    // handleClose of the connection whose handler runs on loop l.
    method HandleClose(l: nat)
      requires Valid() && Legal(Model(), Close(l))
      modifies this
      ensures Valid() && Model() == Step(old(Model()), Close(l))
    {
      hide Inv, ConnName, Mapped, NameOf, SetPc, Lifecycle.SetConn, CloseCallback, Closed, LiveOn, StageOf;
      ghost var s := Model();
      StepKeeps(s, Close(l));
      CloseAdvances(s, l);
      InvBounds(s);
      var pc := loops[l].pc;
      var c := pc.current.value.conn;
      ClosedFields(conns[c]);
      SetPcOf(l, pc.(current := Some(Current(c, true))));
      SetConn(c, Closed(conns[c]));
      RemoveConnection(c);
    }

    method SetPcOf(l: nat, pc: Pc)
      requires l < |loops|
      modifies `loops
      ensures Model() == SetPc(old(Model()), l, pc)
    {
      loops := loops[l := loops[l].(pc := pc)];
    }

    // removeConnection, on the connection's own loop.
    method RemoveConnection(c: nat)
      requires c < |conns| && conns[c].loop < |loops| && Mapped()
      modifies `connections, `conns, `loops
      ensures Mapped() && Model() == CloseCallback(old(Model()), c)
      // The base loop, and it alone, gains one functor: the erase, or what follows an erase done at once.
      ensures |loops| == |old(loops)| && forall m :: 0 < m < |loops| ==> loops[m] == old(loops)[m]
      ensures loops[0] == old(loops)[0].(pending := old(loops)[0].pending + [Task(if conns[c].loop == 0 then Destroy else Remove, c)])
      ensures connections == if conns[c].loop == 0 then old(connections) - {NameOf(c)} else old(connections)
      ensures |conns| == |old(conns)| && forall i :: 0 <= i < |conns| ==>
                conns[i] == if i == c && conns[c].loop == 0 then old(conns)[i].(inMap := false) else old(conns)[i]
    {
      if conns[c].loop == 0 {
        RemoveConnectionInLoop(c);
      } else {
        QueueInLoop(0, Task(Remove, c));
      }
    }

    method RemoveConnectionInLoop(c: nat)
      requires c < |conns| && conns[c].loop < |loops| && Mapped()
      modifies `connections, `conns, `loops
      ensures Mapped() && Model() == Lifecycle.RemoveInLoop(old(Model()), c)
      ensures connections == old(connections) - {NameOf(c)}
    {
      OtherNames(c);
      hide ConnName;
      connections := connections - {NameOf(c)};
      conns := conns[c := conns[c].(inMap := false)];
      QueueInLoop(conns[c].loop, Task(Destroy, c));
    }

    // One functor of the batch that loop l is working through.
    method RunTask(l: nat)
      requires Valid() && Legal(Model(), Op.RunTask(l))
      modifies this
      ensures Valid() && Model() == Step(old(Model()), Op.RunTask(l))
    {
      hide Inv, ConnName, Mapped, NameOf, Pop, Lifecycle.SetConn, Lifecycle.RemoveInLoop, Established, Destroyed, Called, StageOf, Rank;
      ghost var s := Model();
      StepKeeps(s, Op.RunTask(l));
      TaskAdvances(s, l);
      InvBounds(s);
      var t := loops[l].batch[0];
      EstablishedFields(conns[t.conn]);
      DestroyedFields(conns[t.conn]);
      CalledFields(conns[t.conn]);
      PopTask(l);
      match t.kind
      case Establish => SetConn(t.conn, Established(conns[t.conn]));
      case Remove => RemoveConnectionInLoop(t.conn);
      case Destroy => SetConn(t.conn, Destroyed(conns[t.conn]));
      case HalfClose => SetConn(t.conn, Called(conns[t.conn]));
    }

    method PopTask(l: nat)
      requires l < |loops| && loops[l].batch != []
      modifies `loops
      ensures Model() == Pop(old(Model()), l)
    {
      var L := loops[l];
      loops := loops[l := L.(batch := L.batch[1..], done := L.done + [L.batch[0]])];
    }

    method SetConn(c: nat, conn: Conn)
      requires c < |conns| && Mapped() && conn.inMap == conns[c].inMap
      modifies `conns
      ensures Mapped() && Model() == Lifecycle.SetConn(old(Model()), c, conn)
    {
      hide ConnName;
      conns := conns[c := conn];
    }
  }

  lemma NewFields(l: nat)
    ensures Fresh(l).inMap && Established(Fresh(l)).inMap
  {
  }

  lemma ClosedFields(c: Conn)
    ensures Closed(c).loop == c.loop && Closed(c).inMap == c.inMap
  {
  }

  lemma EstablishedFields(c: Conn)
    ensures Established(c).inMap == c.inMap
  {
  }

  lemma DestroyedFields(c: Conn)
    ensures Destroyed(c).inMap == c.inMap
  {
  }

  lemma CalledFields(c: Conn)
    ensures Called(c).inMap == c.inMap
  {
  }

  lemma InvBounds(s: Server)
    requires Inv(s)
    ensures 0 < |s.loops| && forall c :: 0 <= c < |s.conns| ==> s.conns[c].loop < |s.loops|
  {
  }
}
