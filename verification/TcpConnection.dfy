/**
 tcpconnection.cc as code, writing into the linear buffer of LinearBuffer. Every
 handler is one step of TcpConnectionSpec.
 */
module TcpConnection {
  import opened Bytes
  import opened S = TcpConnectionSpec
  import opened LinearBuffer

  class TcpConnection {
    var state: ConnState
    var outputBuffer: Buffer
    var writing: bool
    var highWaterMark: nat
    var writeCompleteCallback: bool
    var queuedShutdowns: nat
    var notices: seq<Notice>
    ghost var given: seq<Byte>
    ghost var accepted: seq<Byte>
    var shutdowns: nat
    ghost var asked: bool
    ghost var closed: bool

    ghost predicate Valid()
      reads this, outputBuffer
    {
      outputBuffer.Valid()
    }

    ghost function Model(): State
      requires Valid()
      reads this, outputBuffer, outputBuffer.buffer
    {
      State(state, outputBuffer.Contents(), writing, highWaterMark, writeCompleteCallback, queuedShutdowns,
            notices, given, accepted, shutdowns, asked, closed)
    }

    constructor (mark: nat, notify: bool)
      ensures Valid() && fresh(outputBuffer) && fresh(outputBuffer.buffer) && Model() == Start(mark, notify)
    {
      var b := new Buffer(1024);
      outputBuffer := b;
      state, writing, highWaterMark, writeCompleteCallback := Connecting, false, mark, notify;
      queuedShutdowns, notices := 0, [];
      given, accepted, shutdowns, asked, closed := [], [], 0, false, false;
    }

    method ConnectEstablished()
      requires Valid() && state.Connecting?
      modifies this`state
      ensures Valid() && Model() == Step(old(Model()), Establish)
    {
      state := Connected;
    }

    // send() in the loop thread
    method Send(data: seq<Byte>, result: WriteResult)
      requires Valid()
      modifies this, outputBuffer, outputBuffer.buffer
      ensures Valid() && outputBuffer == old(outputBuffer)
      ensures outputBuffer.buffer == old(outputBuffer.buffer) || fresh(outputBuffer.buffer)
      ensures Model() == Step(old(Model()), Event.Send(data, result))
    {
      if state.Connected? {
        SendInLoop(data, result);
      }
    }

    // sendInLoop's write(2), tried when nothing is pending.
    method WriteDirectly(data: seq<Byte>, result: WriteResult) returns (nwrote: nat, faultError: bool)
      requires Valid()
      modifies this`notices, this`accepted
      ensures Valid() && Model() == WrittenDirectly(old(Model()), data, result)
      ensures nwrote == Taken(result, |data|) && faultError == FaultError(result)
    {
      nwrote, faultError := 0, false;
      if result.Wrote? {
        nwrote := Taken(result, |data|);
        if |data| - nwrote == 0 && writeCompleteCallback {
          notices := notices + [WriteComplete];
        }
      } else if result.errno == EWOULDBLOCK {
        if result.errno == EPIPE || result.errno == ECONNRESET {
          faultError := true;
        }
      }
      accepted := accepted + data[..nwrote];
    }

    // What sendInLoop does with the data that is left.
    method AppendToOutput(rest: seq<Byte>)
      requires Valid() && |rest| > 0
      modifies this`notices, this`writing, outputBuffer, outputBuffer.buffer
      ensures Valid()
      ensures outputBuffer.buffer == old(outputBuffer.buffer) || fresh(outputBuffer.buffer)
      ensures Model() == Buffered(old(Model()), rest)
    {
      var oldLen, remaining := outputBuffer.ReadableBytes(), |rest|;
      if oldLen + remaining >= highWaterMark && oldLen < highWaterMark && highWaterMark != 0 {
        notices := notices + [HighWater(oldLen + remaining)];
      }
      outputBuffer.Append(rest);
      if !writing {
        writing := true;
      }
    }

    method SendInLoop(data: seq<Byte>, result: WriteResult)
      requires Valid()
      modifies this, outputBuffer, outputBuffer.buffer
      ensures Valid() && outputBuffer == old(outputBuffer)
      ensures outputBuffer.buffer == old(outputBuffer.buffer) || fresh(outputBuffer.buffer)
      ensures Model() == Step(old(Model()), Event.SendInLoop(data, result))
    {
      var nwrote, faultError := 0, false;
      given := given + data;
      if !writing && outputBuffer.ReadableBytes() == 0 {
        nwrote, faultError := WriteDirectly(data, Kernel(result, shutdowns));
      }
      assert data[0..] == data;
      if !faultError && |data| - nwrote > 0 {
        AppendToOutput(data[nwrote..]);
      }
    }

    // The output buffer has been drained.
    method AllWritten()
      requires Valid()
      modifies this`writing, this`notices, this`shutdowns, this`asked
      ensures Valid()
      ensures var u := old(Model()).(writing := false,
                                     notices := if writeCompleteCallback then old(notices) + [WriteComplete] else old(notices));
              Model() == if u.state.Disconnecting? then ShuttingDown(u) else u
    {
      writing := false;
      if writeCompleteCallback {
        notices := notices + [WriteComplete];
      }
      if state.Disconnecting? {
        ShutdownInLoop();
      }
    }

    method HandleWrite(result: WriteResult)
      requires Valid()
      modifies this, outputBuffer
      ensures Valid() && outputBuffer == old(outputBuffer) && outputBuffer.buffer == old(outputBuffer.buffer)
      ensures Model() == Step(old(Model()), Event.HandleWrite(result))
    {
      if writing {
        var n := Taken(Kernel(result, shutdowns), outputBuffer.ReadableBytes());
        if n > 0 {
          accepted := accepted + outputBuffer.Contents()[..n];
          outputBuffer.Retrieve(n);
          if outputBuffer.ReadableBytes() == 0 {
            AllWritten();
          }
        }
      }
    }

    // shutdown(), which runs the second half at once in the loop thread and queues it in any other
    method Shutdown(inLoop: bool)
      requires Valid()
      modifies this
      ensures Valid() && outputBuffer == old(outputBuffer)
      ensures Model() == Step(old(Model()), Event.Shutdown(inLoop))
    {
      if state.Connected? {
        state := Disconnecting;
        if inLoop {
          ShutdownInLoop();
        } else {
          queuedShutdowns := queuedShutdowns + 1;
        }
      }
    }

    method ShutdownInLoop()
      requires Valid()
      modifies this`shutdowns, this`asked
      ensures Valid() && Model() == ShuttingDown(old(Model()))
    {
      asked := asked || state.Disconnecting?;
      if !writing {
        shutdowns := shutdowns + 1;
      }
    }

    // shutdownInLoop as a queued functor
    method RunQueuedShutdown()
      requires Valid() && queuedShutdowns > 0
      modifies this
      ensures Valid() && outputBuffer == old(outputBuffer)
      ensures Model() == Step(old(Model()), Event.ShutdownInLoop)
    {
      queuedShutdowns := queuedShutdowns - 1;
      ShutdownInLoop();
    }

    // handleClose, and connectDestroyed after it
    method HandleClose()
      requires Valid()
      modifies this
      ensures Valid() && outputBuffer == old(outputBuffer)
      ensures Model() == Step(old(Model()), Event.HandleClose)
    {
      state := Disconnected;
      writing := false;
      closed := true;
    }
  }
}
