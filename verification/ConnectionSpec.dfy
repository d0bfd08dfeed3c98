/** One connection on its loop's thread: partial writes, the output buffer, write interest, and the half-close,
    with other threads asking for the shutdown. */
module ConnectionSpec {
  import opened Buffers
  import opened ConnectionStates

  // What write reports.
  datatype WriteResult =
    | Wrote(n: nat)
    | WouldBlock
    | BrokenPipe     // EPIPE or ECONNRESET
    | OtherError

  datatype Callback = WriteComplete | HighWater(size: nat)

  // What handleRead reports: bytes to messageCallback_, a failure to handleError.
  datatype Notice = Message(arrived: nat) | ReadError(errno: int)

  datatype Conn = Conn(
    state: State,
    out: seq<byte>,            // outputBuffer_
    input: seq<byte>,          // inputBuffer_
    reading: bool,
    writing: bool,
    closed: bool,              // disableAll has run
    highWaterMark: nat,
    completeSet: bool,         // writeCompleteCallback_ is set
    highSet: bool,             // highWaterMarkCallback_ is set
    callbacks: seq<Callback>,  // queued in the loop, oldest first
    notices: seq<Notice>,
    tests: nat,                // other threads in shutdown() that have read kConnected and not yet set the state
    queued: nat,               // their calls of shutdownInLoop that wait in the loop
    halfCloses: nat,           // calls of shutdownWrite
    written: seq<byte>,        // what the kernel has taken
    accepted: seq<byte>)       // what send has taken on

  datatype Op =
    | Establish
    | Send(data: seq<byte>, result: WriteResult)
    | Writable(result: WriteResult)
    | Readable(arrived: ReadResult)
    | Hangup           // the poller reports EPOLLHUP and nothing to read
    | Shutdown         // on the loop's thread
    | TestElsewhere    // shutdown() on another thread reads the state
    | SetElsewhere     // and later sets it, and queues the rest
    | RunShutdown      // the loop gets to a queued call
    | Destroy

  function Init(highWaterMark: nat, completeSet: bool, highSet: bool): Conn {
    Conn(Connecting, [], [], false, false, false, highWaterMark, completeSet, highSet, [], [], 0, 0, 0, [], [])
  }

  function Complete(c: Conn): Conn {
    if c.completeSet then c.(callbacks := c.callbacks + [WriteComplete]) else c
  }

  // sendInLoop: write directly if nothing is waiting, buffer what is left, and ask for write events.
  function SendInLoop(c: Conn, data: seq<byte>, result: WriteResult): Conn {
    var direct := !c.writing && c.out == [];
    if direct && result == BrokenPipe then c
    else
      var n := if direct && result.Wrote? && result.n <= |data| then result.n else 0;
      var d := c.(written := c.written + data[..n], accepted := c.accepted + data);
      if n == |data| then (if direct && result.Wrote? then Complete(d) else d) else Enqueue(d, data[n..])
  }

  function Enqueue(c: Conn, rest: seq<byte>): Conn {
    var high := |c.out| + |rest| >= c.highWaterMark && |c.out| < c.highWaterMark && c.highSet;
    c.(callbacks := if high then c.callbacks + [HighWater(|c.out| + |rest|)] else c.callbacks,
       out := c.out + rest,
       writing := true)
  }

  function ShutdownInLoop(c: Conn): Conn {
    if c.writing then c else c.(halfCloses := c.halfCloses + 1)
  }

  // handleWrite: what the kernel takes leaves the buffer; an empty buffer ends write interest.
  function HandleWrite(c: Conn, result: WriteResult): Conn {
    if c.writing && result.Wrote? && 0 < result.n <= |c.out| then
      var d := c.(out := c.out[result.n..], written := c.written + c.out[..result.n]);
      if d.out != [] then d
      else
        var e := Complete(d.(writing := false));
        if e.state == Disconnecting then ShutdownInLoop(e) else e
    else c
  }

  function HandleClose(c: Conn): Conn {
    c.(state := Disconnected, reading := false, writing := false, closed := true)
  }

  function HandleRead(c: Conn, r: ReadResult): Conn {
    if r.Failed? then c.(notices := c.notices + [ReadError(r.errno)])
    else if r.data == [] then HandleClose(c)
    else c.(input := c.input + r.data, notices := c.notices + [Message(|r.data|)])
  }

  function Step(c: Conn, op: Op): Conn {
    match op
    case Establish => c.(state := Connected, reading := true)
    case Send(data, result) => if c.state == Connected then SendInLoop(c, data, result) else c
    case Writable(result) => HandleWrite(c, result)
    case Readable(r) => HandleRead(c, r)
    case Hangup => HandleClose(c)
    case Shutdown => if c.state == Connected then ShutdownInLoop(c.(state := Disconnecting)) else c
    case TestElsewhere => if c.state == Connected then c.(tests := c.tests + 1) else c
    case SetElsewhere => if c.tests > 0 then c.(state := Disconnecting, tests := c.tests - 1, queued := c.queued + 1) else c
    case RunShutdown => if c.queued > 0 then ShutdownInLoop(c.(queued := c.queued - 1)) else c
    case Destroy => if c.state == Connected then HandleClose(c) else c
  }

  // The kernel never takes more than it was given; the connection is established once, first; a channel that
  // does not read is not in the poller, and nothing is reported of it.
  predicate Legal(c: Conn, op: Op) {
    match op
    case Establish => c.state == Connecting
    case Send(data, result) => result.Wrote? ==> result.n <= |data|
    case Writable(result) => c.writing && result.Wrote? ==> result.n <= |c.out|
    case Readable(r) => c.reading
    case Hangup => c.reading
    case SetElsewhere => c.tests > 0
    case RunShutdown => c.queued > 0
    case _ => true
  }

  ghost predicate LegalRun(c: Conn, ops: seq<Op>)
    decreases |ops|, 1
  {
    ops == [] ||
    var n := |ops| - 1;
    LegalRun(c, ops[..n]) && Legal(Run(c, ops[..n]), ops[n])
  }

  function Run(c: Conn, ops: seq<Op>): Conn
    decreases |ops|, 0
  {
    if ops == [] then c
    else
      var n := |ops| - 1;
      Step(Run(c, ops[..n]), ops[n])
  }

  // ----- what every run keeps -----

  ghost predicate Inv(c: Conn) {
    && c.written + c.out == c.accepted
    && (!c.closed ==> (c.writing <==> c.out != []) && c.state != Disconnected)
    && (c.closed ==> !c.writing && !c.reading && (c.state == Disconnected || c.state == Disconnecting))
    && (c.state == Connecting ==> c.out == [] && !c.reading && c.tests == 0)
    && (c.state == Connecting || c.state == Connected ==> c.halfCloses == 0 && c.queued == 0)
    && (c.state == Disconnecting && !c.closed && c.out == [] ==> c.halfCloses > 0 || c.queued > 0)
    && (c.state == Disconnecting && !c.closed && c.out != [] ==> c.halfCloses == 0)
  }

  lemma SendKeeps(c: Conn, data: seq<byte>, result: WriteResult)
    requires Inv(c) && c.state == Connected && (result.Wrote? ==> result.n <= |data|)
    ensures Inv(SendInLoop(c, data, result))
  {
    SendConserves(c, data, result);
  }

  lemma SendConserves(c: Conn, data: seq<byte>, result: WriteResult)
    requires c.written + c.out == c.accepted && (result.Wrote? ==> result.n <= |data|)
    ensures var d := SendInLoop(c, data, result); d.written + d.out == d.accepted
  {
    var direct := !c.writing && c.out == [];
    if !(direct && result == BrokenPipe) {
      var n := if direct && result.Wrote? then result.n else 0;
      assert data == data[..n] + data[n..];
      assert c.written + c.out + data == (c.written + data[..n]) + (c.out + data[n..]);
    }
  }

  lemma WritableKeeps(c: Conn, result: WriteResult)
    requires Inv(c)
    ensures Inv(HandleWrite(c, result))
  {
    if c.writing && result.Wrote? && 0 < result.n <= |c.out| {
      assert c.out == c.out[..result.n] + c.out[result.n..];
    }
  }

  lemma StepKeeps(c: Conn, op: Op)
    requires Inv(c) && Legal(c, op)
    ensures Inv(Step(c, op))
  {
    hide SendInLoop, HandleWrite;
    match op
    case Send(data, result) => if c.state == Connected { SendKeeps(c, data, result); }
    case Writable(result) => WritableKeeps(c, result);
    case _ =>
  }

  /** In every run, up to and past a close: what the kernel took and what waits is what was accepted, in order;
      while the connection is up, write events are asked for exactly when bytes wait. */
  lemma {:induction false} RunKeeps(mark: nat, complete: bool, high: bool, ops: seq<Op>)
    requires LegalRun(Init(mark, complete, high), ops)
    ensures Inv(Run(Init(mark, complete, high), ops))
  {
    if ops != [] {
      var n := |ops| - 1;
      RunKeeps(mark, complete, high, ops[..n]);
      StepKeeps(Run(Init(mark, complete, high), ops[..n]), ops[n]);
    }
  }
}
