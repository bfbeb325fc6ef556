/**
 `TcpConnection` (TcpConnection.cpp) as an object: the handlers update the state, the channel's
 interest and the buffers in place, and every one has the effect of the operation of the same
 name in ConnectionProtocol. The socket appears as what is read from it and written to it.
 */
module TcpConnection {
  import opened Basics
  import opened P = ConnectionProtocol

  class Connection {
    var state: StateE
    var reading: bool           // interest of the channel
    var writing: bool
    var inputBuffer: string
    var outputBuffer: string
    var functors: seq<Job>      // queued on the loop by this connection
    ghost var flying: InFlight  // calls of other threads that have still to queue theirs
    // What the socket and the callbacks have seen
    ghost var received: string
    ghost var written: string
    ghost var accepted: string
    ghost var shutWrite: bool
    ghost var shutDirty: bool
    ghost var shutEarly: bool
    ghost var messages: Messages
    ghost var ups: nat
    ghost var downs: nat
    ghost var assertFailed: bool

    ghost function View(): Conn
      reads this
    {
      Conn(state, reading, writing, inputBuffer, outputBuffer, functors, flying, received, written, accepted,
           messages, shutWrite, shutDirty, shutEarly, ups, downs, assertFailed)
    }

    ghost predicate Valid()
      reads this
    {
      Inv(View())
    }

    constructor ()
      ensures View() == Fresh && Valid()
    {
      state, reading, writing := Connecting, false, false;
      inputBuffer, outputBuffer, functors := "", "", [];
      flying := NoCalls;
      received, written, accepted, shutWrite, shutDirty := "", "", "", false, false;
      messages, shutEarly := Fresh.messages, false;
      ups, downs, assertFailed := 0, 0, false;
    }

    method ConnectEstablished()
      modifies this
      ensures View() == P.ConnectEstablished(old(View()))
    {
      assertFailed := assertFailed || !state.Connecting?;
      state := Connected;
      reading := true;
      ups := ups + 1;
    }

    method DisableAll()
      modifies this`reading, this`writing
      ensures !reading && !writing
    {
      reading, writing := false, false;
    }

    method ConnectDestroyed()
      modifies this
      ensures View() == P.ConnectDestroyed(old(View()))
    {
      if state == Connected {
        state := Disconnected;
        DisableAll();
        downs := downs + 1;
      }
    }

    method HandleClose()
      modifies this
      ensures View() == P.HandleClose(old(View()))
    {
      assertFailed := assertFailed || !(state.Connected? || state.Disconnecting?);
      state := Disconnected;
      DisableAll();
      downs := downs + 1;
    }

    method SendInLoop(message: string)
      modifies this
      ensures View() == P.SendInLoop(old(View()), message)
    {
      if state == Disconnected {
        messages := messages.Drop(message);
        return;
      }
      outputBuffer := outputBuffer + message;
      accepted, messages := accepted + message, messages.Append(message);
      if !writing {
        writing := true;
      }
    }

    method ShutdownInLoop()
      modifies this
      ensures View() == P.ShutdownInLoop(old(View()))
    {
      if !writing {
        shutWrite := true;
        shutDirty := shutDirty || outputBuffer != "";
        shutEarly := shutEarly || !(messages.taken == multiset(messages.appended) && outputBuffer == "");
      }
    }

    method ForceCloseInLoop()
      modifies this
      ensures View() == P.ForceCloseInLoop(old(View()))
    {
      if state == Connected || state == Disconnecting {
        HandleClose();
      }
    }

    // The public interface. Another thread that calls it does the check here and its push in `QueueInLoop`.

    method Send(message: string, inLoop: bool)
      modifies this
      ensures View() == Call(old(View()), UserCall.Send(message), inLoop)
    {
      if state == Connected {
        messages := messages.Take(message);
        if inLoop {
          SendInLoop(message);
        } else {
          flying := flying.With(SendJob(message));
        }
      }
    }

    method Shutdown(inLoop: bool)
      modifies this
      ensures View() == Call(old(View()), UserCall.Shutdown, inLoop)
    {
      if state == Connected {
        state := Disconnecting;
        if inLoop {
          ShutdownInLoop();
        } else {
          flying := flying.With(ShutdownJob);
        }
      }
    }

    method ForceClose(inLoop: bool)
      modifies this
      ensures View() == Call(old(View()), UserCall.ForceClose, inLoop)
    {
      if state == Connected || state == Disconnecting {
        state := Disconnecting;
        if inLoop {
          functors := functors + [ForceCloseJob];
        } else {
          flying := flying.With(ForceCloseJob);
        }
      }
    }

    /** `queueInLoop` by another thread, at the end of its call: the push under the lock, whatever has become of the
        connection since the check. */
    method QueueInLoop(job: Job)
      requires flying.Has(job)
      modifies this
      ensures View() == PushJob(old(View()), job)
    {
      functors := functors + [job];
      flying := flying.Without(job);
    }

    /** What a user callback does with the connection. */
    method MakeCalls(calls: seq<UserCall>)
      modifies this
      ensures View() == Calls(old(View()), calls)
    {
      for i := 0 to |calls|
        invariant View() == Calls(old(View()), calls[..i])
      {
        assert calls[..i + 1][..i] == calls[..i] && calls[..i + 1][i] == calls[i];
        match calls[i] {
          case Send(message) => Send(message, true);
          case Shutdown => Shutdown(true);
          case ForceClose => ForceClose(true);
        }
      }
      assert calls[..|calls|] == calls;
    }

    method HandleRead(result: ReadResult, cb: Callback)
      modifies this
      ensures View() == P.HandleRead(old(View()), result, cb)
    {
      match result {
        case Data(bytes) =>
          inputBuffer := inputBuffer + bytes;
          received := received + bytes;
          inputBuffer := inputBuffer[Min(cb.retrieve, |inputBuffer|)..];
          MakeCalls(cb.calls);
        case Eof =>
          if outputBuffer != "" {
            state := Disconnecting;
          } else {
            HandleClose();
          }
        case ReadError =>
      }
    }

    method HandleWrite(n: nat, calls: seq<UserCall>)
      modifies this
      ensures View() == P.HandleWrite(old(View()), n, calls)
    {
      if writing {
        var k := Min(n, |outputBuffer|);
        if k > 0 {
          written := written + outputBuffer[..k];
          outputBuffer := outputBuffer[k..];
          if outputBuffer == "" {
            writing := false;
            MakeCalls(calls);
            if state == Disconnecting {
              ShutdownInLoop();
            }
          }
        }
      }
    }

    /** `Channel::handleEventWithGuard` with this connection's handlers. */
    method HandleEvent(e: Revents, result: ReadResult, cb: Callback, n: nat, onComplete: seq<UserCall>)
      requires Valid() && reading && !(e.hup && !e.input && e.priOrRdhup)
      modifies this
      ensures View() == P.HandleEvent(old(View()), e, result, cb, n, onComplete)
      ensures Valid() && Rank(old(state)) <= Rank(state)
    {
      HandleEventFollows(View(), e, result, cb, n, onComplete);
      if e.hup && !e.input {
        HandleClose();
      }
      if e.input || e.priOrRdhup {
        HandleRead(result, cb);
      }
      if e.output {
        HandleWrite(n, onComplete);
      }
    }

    /** The loop runs the oldest functor this connection has queued. */
    method RunFunctor()
      requires functors != []
      modifies this
      ensures View() == Apply(old(View()), NextJob)
    {
      var job := functors[0];
      functors := functors[1..];
      CallFunctor(job);
    }

    method CallFunctor(job: Job)
      modifies this
      ensures View() == RunJob(old(View()), job)
    {
      match job {
        case SendJob(message) => SendInLoop(message);
        case ShutdownJob => ShutdownInLoop();
        case ForceCloseJob => ForceCloseInLoop();
      }
    }

    /** The message callback of the echo server: it retrieves all the input and sends it back. */
    method EchoOnMessage(bytes: string)
      requires Valid() && state == Connected && inputBuffer == ""
      modifies this
      ensures inputBuffer == "" && outputBuffer == old(outputBuffer) + bytes && received == old(received) + bytes
      ensures Valid() && state == Connected && writing
    {
      HandleReadFollows(View(), Data(bytes), Callback(|bytes|, [UserCall.Send(bytes)]));
      assert inputBuffer + bytes == bytes && bytes[|bytes|..] == "";
      ghost var got := View().(input := "", received := received + bytes);
      assert [UserCall.Send(bytes)][..0] == [] && Calls(got, []) == got;
      HandleRead(Data(bytes), Callback(|bytes|, [UserCall.Send(bytes)]));
    }
  }
}
