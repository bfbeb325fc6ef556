/**
 The task queue of `EventLoop` (EventLoop.cpp) as an object. Each method is what one thread does
 between two points where another thread can interfere, and its effect is the step of the
 same name in EventLoopProtocol.
 */
module EventLoop {
  import opened EventLoopProtocol

  class Loop {
    var looping: bool
    var quit: bool
    var callingPendingFunctors: bool
    var pendingFunctors: seq<nat>
    var functors: seq<nat>        // the local vector of `doPendingFunctors`
    var wakeupCounter: nat        // of the eventfd
    // Positions of the threads, and history
    ghost var phase: Phase
    ghost var pushGaps: nat
    ghost var quitGaps: nat
    ghost var queued: seq<nat>
    ghost var executed: seq<nat>

    ghost function View(): State
      reads this
    {
      State(if phase.Calling? then Calling(functors) else phase,
            pendingFunctors, wakeupCounter, quit, pushGaps, quitGaps, queued, executed)
    }

    /** The flag says where the loop thread is. */
    ghost predicate Valid()
      reads this
    {
      callingPendingFunctors == phase.Calling? && looping == !(phase.Before? || phase.Left?)
    }

    constructor ()
      ensures Valid() && Init(View())
    {
      looping, quit, callingPendingFunctors := false, false, false;
      pendingFunctors, functors, wakeupCounter := [], [], 0;
      phase, pushGaps, quitGaps, queued, executed := Before, 0, 0, [], [];
    }

    method Wakeup()
      modifies this`wakeupCounter
      ensures wakeupCounter == old(wakeupCounter) + 1
    {
      wakeupCounter := wakeupCounter + 1;
    }

    /** The locked part of `queueInLoop` by another thread. */
    method ForeignQueueInLoop(f: nat)
      requires Valid()
      modifies this
      ensures Valid() && View() == Apply(old(View()), ForeignPush(f))
    {
      pendingFunctors := pendingFunctors + [f];
      queued, pushGaps := queued + [f], pushGaps + 1;
    }

    /** The rest of `queueInLoop` by another thread. */
    method ForeignWakeupAfterPush()
      requires Valid() && pushGaps > 0
      modifies this
      ensures Valid() && View() == Apply(old(View()), ForeignWakeup)
    {
      Wakeup();
      pushGaps := pushGaps - 1;
    }

    /** `queueInLoop` by the loop thread: it wakes the loop only while functors are being called. */
    method QueueInLoop(f: nat)
      requires Valid() && Enabled(View(), LoopPush(f))
      modifies this
      ensures Valid() && View() == Apply(old(View()), LoopPush(f))
    {
      pendingFunctors := pendingFunctors + [f];
      queued := queued + [f];
      if callingPendingFunctors {
        Wakeup();
      }
    }

    /** `runInLoop`: the loop thread calls the functor at once, any other thread queues it. */
    method RunInLoop(f: nat, inLoopThread: bool) returns (callNow: bool)
      requires Valid()
      modifies this
      ensures Valid() && callNow == inLoopThread
      ensures View() == if inLoopThread then old(View()) else Apply(old(View()), ForeignPush(f))
    {
      if inLoopThread {
        callNow := true;
      } else {
        ForeignQueueInLoop(f);
        callNow := false;
      }
    }

    /** `quit` by any thread; another thread still has to write the eventfd. */
    method Quit(inLoopThread: bool)
      requires Valid() && (inLoopThread ==> InLoopCode(phase))
      modifies this
      ensures Valid() && View() == Apply(old(View()), if inLoopThread then LoopQuit else ForeignQuit)
    {
      quit := true;
      if !inLoopThread { quitGaps := quitGaps + 1; }
    }

    method ForeignWakeupAfterQuit()
      requires Valid() && quitGaps > 0
      modifies this
      ensures Valid() && View() == Apply(old(View()), ForeignQuitWakeup)
    {
      Wakeup();
      quitGaps := quitGaps - 1;
    }

    /** The start of `loop()`. */
    method EnterLoop()
      requires Valid() && phase.Before?
      modifies this
      ensures Valid() && View() == Apply(old(View()), Enter)
    {
      looping, quit := true, false;
      phase := AtTest;
    }

    /** The loop condition. */
    method TestQuit() returns (goOn: bool)
      requires Valid() && phase.AtTest?
      modifies this
      ensures Valid() && goOn == !old(quit) && View() == Apply(old(View()), Test)
    {
      goOn := !quit;
      phase := if goOn then Polling else Left;
      if !goOn { looping := false; }
    }

    /** `poll` returns, for whatever reason. */
    method ReturnFromPoll()
      requires Valid() && phase.Polling?
      modifies this
      ensures Valid() && View() == Apply(old(View()), PollReturns)
    {
      phase := Dispatching;
    }

    /** `handleWakeup`: reading an eventfd returns its counter and resets it. */
    method ReadWakeupFd()
      requires Valid() && phase.Dispatching?
      modifies this
      ensures Valid() && View() == Apply(old(View()), HandleWakeup)
    {
      wakeupCounter := 0;
    }

    /** The locked part of `doPendingFunctors`. */
    method SwapFunctors()
      requires Valid() && phase.Dispatching?
      modifies this
      ensures Valid() && View() == Apply(old(View()), SwapPending)
    {
      callingPendingFunctors := true;
      functors, pendingFunctors := pendingFunctors, [];
      phase := Calling([]);
    }

    /** The call of the next functor of the batch. */
    method CallNext() returns (f: nat)
      requires Valid() && phase.Calling? && functors != []
      modifies this
      ensures Valid() && f == old(functors[0]) && View() == Apply(old(View()), RunNext)
    {
      f := functors[0];
      functors := functors[1..];
      executed := executed + [f];
    }

    method EndFunctors()
      requires Valid() && phase.Calling? && functors == []
      modifies this
      ensures Valid() && View() == Apply(old(View()), EndCalls)
    {
      callingPendingFunctors := false;
      phase := AtTest;
    }

    /** What `queuedBy` queues while the functors of `batch` run one after another. */
    static function QueuedDuring(batch: seq<nat>, queuedBy: nat -> seq<nat>): seq<nat> {
      if batch == [] then [] else QueuedDuring(batch[..|batch|-1], queuedBy) + queuedBy(batch[|batch|-1])
    }

    /** `doPendingFunctors` with no other thread in between, where functor `f` queues the functors
        `queuedBy(f)`: it runs exactly what was pending, once and in order; what the functors
        queue stays pending and leaves a wakeup behind. */
    method DoPendingFunctors(queuedBy: nat -> seq<nat>)
      requires Valid() && phase.Dispatching?
      modifies this
      ensures Valid() && phase.AtTest?
      ensures executed == old(executed) + old(pendingFunctors)
      ensures pendingFunctors == QueuedDuring(old(pendingFunctors), queuedBy)
      ensures wakeupCounter == old(wakeupCounter) + |pendingFunctors|
    {
      SwapFunctors();
      ghost var batch := functors;
      ghost var i := 0;
      while functors != []
        invariant Valid() && phase.Calling? && 0 <= i <= |batch| && functors == batch[i..]
        invariant executed == old(executed) + batch[..i]
        invariant pendingFunctors == QueuedDuring(batch[..i], queuedBy)
        invariant wakeupCounter == old(wakeupCounter) + |pendingFunctors|
        decreases |functors|
      {
        var f := CallNext();
        assert batch[..i + 1][..i] == batch[..i] && batch[..i + 1][i] == f;
        QueueAll(queuedBy(f));
        i := i + 1;
      }
      assert batch[..i] == batch;
      EndFunctors();
    }

    /** A functor queues others, one after another. */
    method QueueAll(more: seq<nat>)
      requires Valid() && phase.Calling?
      modifies this
      ensures Valid() && phase.Calling? && functors == old(functors) && executed == old(executed)
      ensures pendingFunctors == old(pendingFunctors) + more && wakeupCounter == old(wakeupCounter) + |more|
    {
      for k := 0 to |more|
        invariant Valid() && phase.Calling? && functors == old(functors) && executed == old(executed)
        invariant pendingFunctors == old(pendingFunctors) + more[..k] && wakeupCounter == old(wakeupCounter) + k
      {
        QueueInLoop(more[k]);
      }
      assert more[..|more|] == more;
    }
  }
}
