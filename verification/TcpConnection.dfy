/** One connection as it runs on its loop's thread, over the real buffers. */
module TcpConnections {
  import opened Buffers
  import opened ConnectionStates
  import opened ConnectionSpec

  class TcpConnection {
    var state: State
    var reading: bool                 // the read bit of channel_
    var writing: bool                 // the write bit of channel_
    const inputBuffer: Buffer
    const outputBuffer: Buffer
    var highWaterMark: nat
    var completeSet: bool
    var highSet: bool
    var callbacks: seq<Callback>      // what this connection queued in its loop
    var notices: seq<Notice>          // calls of messageCallback_ and handleError
    var tests: nat                    // other threads inside shutdown(), past its test
    var queued: nat                   // their calls of shutdownInLoop that wait in the loop
    var halfCloses: nat               // calls of shutdownWrite on socket_
    ghost var closed: bool
    ghost var written: seq<byte>
    ghost var accepted: seq<byte>

    ghost predicate Valid()
      reads this, inputBuffer, outputBuffer
    {
      && inputBuffer != outputBuffer && inputBuffer.Valid() && outputBuffer.Valid()
      && inputBuffer.buffer != outputBuffer.buffer
    }

    ghost function Model(): Conn
      requires Valid()
      reads this, inputBuffer, outputBuffer, inputBuffer.buffer, outputBuffer.buffer
    {
      Conn(state, outputBuffer.Contents(), inputBuffer.Contents(), reading, writing, closed, highWaterMark, completeSet,
           highSet, callbacks, notices, tests, queued, halfCloses, written, accepted)
    }

    constructor (highWaterMark: nat, completeSet: bool, highSet: bool)
      ensures Valid() && Model() == Init(highWaterMark, completeSet, highSet)
      ensures fresh(inputBuffer) && fresh(outputBuffer) && fresh(inputBuffer.buffer) && fresh(outputBuffer.buffer)
    {
      state, reading, writing := Connecting, false, false;
      inputBuffer := new Buffer(INITIAL_SIZE);
      outputBuffer := new Buffer(INITIAL_SIZE);
      this.highWaterMark, this.completeSet, this.highSet := highWaterMark, completeSet, highSet;
      callbacks, notices, tests, queued, halfCloses := [], [], 0, 0, 0;
      closed, written, accepted := false, [], [];
    }

    method SendOnLoop(data: seq<byte>, result: WriteResult)
      requires Valid() && Legal(Model(), Send(data, result))
      modifies this, outputBuffer, outputBuffer.buffer
      ensures Valid() && (outputBuffer.buffer == old(outputBuffer.buffer) || fresh(outputBuffer.buffer))
      ensures Model() == Step(old(Model()), Send(data, result))
    {
      if state == Connected {
        SendInLoop(data, result);
      }
    }

    // result is what write reports, if it is called.
    method SendInLoop(data: seq<byte>, result: WriteResult)
      requires Valid() && (result.Wrote? ==> result.n <= |data|)
      modifies `written, `accepted, `callbacks, `writing, outputBuffer, outputBuffer.buffer
      ensures Valid() && (outputBuffer.buffer == old(outputBuffer.buffer) || fresh(outputBuffer.buffer))
      ensures Model() == ConnectionSpec.SendInLoop(old(Model()), data, result)
    {
      hide ConnectionSpec.Enqueue, Buffer.Contents, Buffer.Valid, Buffer.ReadableBytes;
      var nwrote := 0;
      var remaining := |data|;
      var faultError := false;
      if !writing && outputBuffer.ReadableBytes() == 0 {
        if result.Wrote? {
          nwrote := result.n;
          remaining := |data| - nwrote;
          if remaining == 0 && completeSet {
            callbacks := callbacks + [WriteComplete];
          }
        } else if result == BrokenPipe {
          faultError := true;
        }
      }
      if !faultError {
        written := written + data[..nwrote];
        accepted := accepted + data;
      }
      if !faultError && remaining > 0 {
        Enqueue(data[nwrote..]);
      }
    }

    // The end of sendInLoop: what the kernel did not take waits in the buffer.
    method Enqueue(rest: seq<byte>)
      requires Valid()
      modifies `callbacks, `writing, outputBuffer, outputBuffer.buffer
      ensures Valid() && (outputBuffer.buffer == old(outputBuffer.buffer) || fresh(outputBuffer.buffer))
      ensures Model() == ConnectionSpec.Enqueue(old(Model()), rest)
    {
      var oldLen := outputBuffer.ReadableBytes();
      var remaining := |rest|;
      if oldLen + remaining >= highWaterMark && oldLen < highWaterMark && highSet {
        callbacks := callbacks + [HighWater(oldLen + remaining)];
      }
      outputBuffer.Append(rest);
      if !writing {
        writing := true;
      }
    }

    method HandleWrite(result: WriteResult)
      requires Valid() && Legal(Model(), Writable(result))
      modifies this, outputBuffer
      ensures Valid() && Model() == Step(old(Model()), Writable(result))
    {
      hide Buffer.Contents, Buffer.Valid;
      if writing {
        if result.Wrote? && result.n > 0 {
          written := written + outputBuffer.Contents()[..result.n];
          outputBuffer.Retrieve(result.n);
          if outputBuffer.ReadableBytes() == 0 {
            writing := false;
            if completeSet {
              callbacks := callbacks + [WriteComplete];
            }
            if state == Disconnecting {
              ShutdownInLoop();
            }
          }
        }
      }
    }

    method ShutdownOnLoop()
      requires Valid()
      modifies this
      ensures Valid() && Model() == Step(old(Model()), Op.Shutdown)
    {
      if state == Connected {
        state := Disconnecting;
        ShutdownInLoop();
      }
    }

    // shutdown() on another thread: the test, and later the assignment and the functor.
    method TestElsewhere()
      requires Valid()
      modifies `tests
      ensures Valid() && Model() == Step(old(Model()), Op.TestElsewhere)
    {
      if state == Connected {
        tests := tests + 1;
      }
    }

    method SetElsewhere()
      requires Valid() && tests > 0
      modifies `state, `tests, `queued
      ensures Valid() && Model() == Step(old(Model()), Op.SetElsewhere)
    {
      state := Disconnecting;
      tests := tests - 1;
      queued := queued + 1;
    }

    method RunShutdown()
      requires Valid() && queued > 0
      modifies `queued, `halfCloses
      ensures Valid() && Model() == Step(old(Model()), Op.RunShutdown)
    {
      queued := queued - 1;
      ShutdownInLoop();
    }

    method ShutdownInLoop()
      requires Valid()
      modifies `halfCloses
      ensures Valid() && Model() == ConnectionSpec.ShutdownInLoop(old(Model()))
    {
      if !writing {
        halfCloses := halfCloses + 1;
      }
    }

    method ConnectEstablished()
      requires Valid()
      modifies this
      ensures Valid() && Model() == Step(old(Model()), Establish)
    {
      state := Connected;
      reading := true;
    }

    method ConnectDestroyed()
      requires Valid()
      modifies this
      ensures Valid() && Model() == Step(old(Model()), Destroy)
    {
      if state == Connected {
        state := Disconnected;
        reading, writing, closed := false, false, true;
      }
    }

    /** Bytes go to the message callback, the end of the stream closes, a failure goes to the error handler. */
    method HandleRead(arrived: ReadResult)
      requires Valid() && (arrived.Got? ==> |arrived.data| <= inputBuffer.Offered())
      modifies this, inputBuffer, inputBuffer.buffer
      ensures Valid() && (inputBuffer.buffer == old(inputBuffer.buffer) || fresh(inputBuffer.buffer))
      ensures Model() == ConnectionSpec.HandleRead(old(Model()), arrived)
    {
      var n, savedErrno := inputBuffer.ReadFd(arrived);
      if n > 0 {
        notices := notices + [Message(n)];
      } else if n == 0 {
        HandleClose();
      } else {
        notices := notices + [ReadError(savedErrno)];
      }
    }

    // The close callback of a hang-up, and the end of the stream.
    method HandleClose()
      requires Valid()
      modifies `state, `reading, `writing, `closed
      ensures Valid() && Model() == ConnectionSpec.HandleClose(old(Model())) == Step(old(Model()), Hangup)
    {
      state := Disconnected;
      reading, writing, closed := false, false, true;
    }
  }
}
