/**
 The task queue of EventLoop.cpp and its eventfd wakeup: one loop thread and any number of
 other threads. A functor is an opaque number; other threads queue it and then write the eventfd,
 and the two actions can be apart for as long as the scheduler likes.
 */
module EventLoopProtocol {

  /** Where the loop thread is. */
  datatype Phase =
    | Before                      // `loop()` has not been called
    | AtTest                      // about to evaluate `while (!quit_)`
    | Polling                     // in `poller_->poll`
    | Dispatching                 // handling the active channels
    | Calling(batch: seq<nat>)    // in `doPendingFunctors`, with these functors still to run
    | Left                        // `loop()` has returned

  datatype State = State(
    phase: Phase,
    pending: seq<nat>,     // `pendingFunctors_`
    counter: nat,          // of the eventfd
    quit: bool,
    pushGaps: nat,         // other threads between their push and their wakeup
    quitGaps: nat,         // other threads between setting `quit_` and their wakeup
    queued: seq<nat>,      // history: every functor queued, in the order of the pushes
    executed: seq<nat>)    // history: every functor run from the queue, in order

  datatype Step =
    | ForeignPush(f: nat)
    | ForeignWakeup
    | ForeignQuit
    | ForeignQuitWakeup
    | Enter                // `loop()` starts and clears `quit_`
    | Test
    | PollReturns
    | HandleWakeup         // reads the eventfd and so resets it
    | LoopPush(f: nat)     // `queueInLoop` by the loop thread
    | LoopQuit             // `quit` by the loop thread
    | SwapPending
    | RunNext
    | EndCalls

  predicate InLoopCode(p: Phase) { p.Dispatching? || p.Calling? }

  predicate Enabled(s: State, a: Step) {
    match a
    case ForeignPush(_) => true
    case ForeignWakeup => s.pushGaps > 0
    case ForeignQuit => true
    case ForeignQuitWakeup => s.quitGaps > 0
    case Enter => s.phase.Before?
    case Test => s.phase.AtTest?
    case PollReturns => s.phase.Polling?
    case HandleWakeup => s.phase.Dispatching?
    case LoopPush(_) => s.phase.Before? || InLoopCode(s.phase)
    case LoopQuit => InLoopCode(s.phase)
    case SwapPending => s.phase.Dispatching?
    case RunNext => s.phase.Calling? && s.phase.batch != []
    case EndCalls => s.phase.Calling? && s.phase.batch == []
  }

  function Push(s: State, f: nat): State { s.(pending := s.pending + [f], queued := s.queued + [f]) }

  function Apply(s: State, a: Step): State
    requires Enabled(s, a)
  {
    match a
    case ForeignPush(f) => Push(s, f).(pushGaps := s.pushGaps + 1)
    case ForeignWakeup => s.(pushGaps := s.pushGaps - 1, counter := s.counter + 1)
    case ForeignQuit => s.(quit := true, quitGaps := s.quitGaps + 1)
    case ForeignQuitWakeup => s.(quitGaps := s.quitGaps - 1, counter := s.counter + 1)
    case Enter => s.(phase := AtTest, quit := false)
    case Test => s.(phase := if s.quit then Left else Polling)
    case PollReturns => s.(phase := Dispatching)
    case HandleWakeup => s.(counter := 0)
    case LoopPush(f) => if s.phase.Calling? then Push(s, f).(counter := s.counter + 1) else Push(s, f)
    case LoopQuit => s.(quit := true)
    case SwapPending => s.(phase := Calling(s.pending), pending := [])
    case RunNext => s.(phase := Calling(s.phase.batch[1..]), executed := s.executed + [s.phase.batch[0]])
    case EndCalls => s.(phase := AtTest)
  }

  ghost predicate Reaches(s: State, steps: seq<Step>, t: State)
    decreases |steps|
  {
    if steps == [] then s == t
    else Enabled(s, steps[0]) && Reaches(Apply(s, steps[0]), steps[1..], t)
  }

  ghost predicate Init(s: State) {
    s == State(Before, [], 0, false, 0, 0, [], [])
  }

  // ---------------------------------------------------------- functor order

  function Batch(s: State): seq<nat> { if s.phase.Calling? then s.phase.batch else [] }

  /** Queued functors are executed, in the batch being run, or pending, in that order. */
  ghost predicate InOrder(s: State) { s.queued == s.executed + Batch(s) + s.pending }

  lemma StepInOrder(s: State, a: Step)
    requires InOrder(s) && Enabled(s, a)
    ensures InOrder(Apply(s, a))
  {
  }

  lemma {:induction false} RunInOrder(s: State, steps: seq<Step>, t: State)
    requires InOrder(s) && Reaches(s, steps, t)
    ensures InOrder(t)
    decreases |steps|
  {
    if steps != [] {
      StepInOrder(s, steps[0]);
      RunInOrder(Apply(s, steps[0]), steps[1..], t);
    }
  }

  /** In every run the functors executed from the queue are a prefix of those queued: each runs at
      most once, and in the order of the pushes. */
  lemma ExecutedIsPrefix(s: State, steps: seq<Step>, t: State)
    requires Init(s) && Reaches(s, steps, t)
    ensures t.executed <= t.queued && |t.executed| + |Batch(t)| + |t.pending| == |t.queued|
  {
    RunInOrder(s, steps, t);
  }

  // ---------------------------------------------------------------- wakeup

  /** A poll with this state does not block, or another thread is about to end it. */
  predicate Covered(s: State) { s.counter > 0 || s.pushGaps > 0 }

  /** A non-empty queue is covered wherever the loop thread can still reach a poll without
      swapping the queue first. */
  ghost predicate WakeInv(s: State) {
    && (s.phase.AtTest? || s.phase.Polling? || s.phase.Calling? ==> s.pending != [] ==> Covered(s))
    && (s.phase.Polling? && s.quit ==> s.counter > 0 || s.quitGaps > 0)
  }

  lemma StepWakeInv(s: State, a: Step)
    requires WakeInv(s) && Enabled(s, a) && !a.Enter?
    ensures WakeInv(Apply(s, a))
  {
  }

  lemma {:induction false} RunWakeInv(s: State, steps: seq<Step>, t: State)
    requires WakeInv(s) && !s.phase.Before? && Reaches(s, steps, t)
    ensures WakeInv(t)
    decreases |steps|
  {
    if steps != [] {
      StepWakeInv(s, steps[0]);
      RunWakeInv(Apply(s, steps[0]), steps[1..], t);
    }
  }

  /** Every poll of every run that starts by entering `loop()` in `s` is safe. */
  ghost predicate AllPollsCovered(s: State)
    requires s.phase.Before?
  {
    forall steps: seq<Step>, t ::
      Reaches(Apply(s, Enter), steps, t) && t.phase.Polling? && t.pending != [] ==> Covered(t)
  }

  /** Exactly when no poll of a running loop can sleep on queued work: when `loop()` is entered, the
      queue is empty or some other thread's wakeup for it is there or on its way. A functor
      queued by the loop thread itself before `loop()` is what breaks it. */
  lemma PollsCoveredIff(s: State)
    requires s.phase.Before?
    ensures AllPollsCovered(s) <==> s.pending == [] || Covered(s)
  {
    var e := Apply(s, Enter);
    if s.pending == [] || Covered(s) {
      forall steps: seq<Step>, t | Reaches(e, steps, t) && t.phase.Polling? && t.pending != [] ensures Covered(t) {
        RunWakeInv(e, steps, t);
      }
    } else {
      var t := Apply(e, Test);
      assert Reaches(t, [Test][1..], t);
      assert Reaches(e, [Test], t);
    }
  }

  /** From a fresh loop, the sufficient condition a caller can check: the loop thread queued nothing
      before it entered `loop()`. */
  lemma {:induction false} NothingQueuedBefore(s: State, steps: seq<Step>, t: State)
    requires s.phase.Before? && (s.pending == [] || Covered(s)) && Reaches(s, steps, t) && t.phase.Before?
    requires forall a :: a in steps ==> !a.LoopPush?
    ensures AllPollsCovered(t)
    decreases |steps|
  {
    if steps == [] {
      PollsCoveredIff(t);
    } else {
      var s1 := Apply(s, steps[0]);
      if s1.phase.Before? {
        assert forall a :: a in steps[1..] ==> a in steps;
        NothingQueuedBefore(s1, steps[1..], t);
      } else {
        LoopNotReentered(s1, steps[1..], t);
      }
    }
  }

  lemma {:induction false} LoopNotReentered(s: State, steps: seq<Step>, t: State)
    requires !s.phase.Before? && Reaches(s, steps, t)
    ensures !t.phase.Before?
    decreases |steps|
  {
    if steps != [] { LoopNotReentered(Apply(s, steps[0]), steps[1..], t); }
  }

  /** The run in which the first poll does sleep on a queued functor. */
  lemma EarlyPushSleeps() returns (s: State, steps: seq<Step>, t: State)
    ensures Init(s) && Reaches(s, steps, t) && t.phase.Polling? && t.pending != [] && !Covered(t)
  {
    s := State(Before, [], 0, false, 0, 0, [], []);
    var s1 := Apply(s, LoopPush(7));
    var s2 := Apply(s1, Enter);
    t := Apply(s2, Test);
    steps := [LoopPush(7), Enter, Test];
    assert steps[1..] == [Enter, Test] && steps[1..][1..] == [Test];
    assert Reaches(t, [], t);
    assert Reaches(s2, [Test], t);
    assert Reaches(s1, [Enter, Test], t);
  }

  /** In a run of a loop entered safely, a poll that could block with work queued, or with a quit
      requested, is about to be ended by the thread that queued or requested it. */
  lemma BlockedPollIsBeingWoken(s: State, steps: seq<Step>, t: State)
    requires s.phase.Before? && (s.pending == [] || Covered(s))
    requires Reaches(Apply(s, Enter), steps, t) && t.phase.Polling? && t.counter == 0
    ensures t.pending != [] ==> t.pushGaps > 0
    ensures t.quit ==> t.quitGaps > 0
  {
    RunWakeInv(Apply(s, Enter), steps, t);
  }

  /** Work that is queued when a poll returns has been run when the loop comes to its next test,
      if the loop thread is left to itself. */
  lemma {:induction false} IterationRunsAll(s: State) returns (steps: seq<Step>, t: State)
    requires s.phase.Dispatching? || s.phase.Calling?
    ensures Reaches(s, steps, t) && t.phase.AtTest? && t.pending == (if s.phase.Calling? then s.pending else [])
    ensures t.executed == s.executed + Batch(s) + (if s.phase.Calling? then [] else s.pending)
    decreases s.phase.Dispatching?, |Batch(s)|
  {
    var a, s1 := OwnStep(s);
    var rest: seq<Step> := [];
    if a.EndCalls? { t := s1; } else { rest, t := IterationRunsAll(s1); }
    steps := [a] + rest;
    assert steps[1..] == rest;
  }

  // ------------------------------------------------- leaving, and sleeping again

  /** A loop asked to quit while it runs stays asked, and does not poll again. */
  lemma {:induction false} NoPollAfterQuit(s: State, steps: seq<Step>, t: State)
    requires s.quit && !s.phase.Before? && Reaches(s, steps, t)
    ensures t.quit && !t.phase.Before? && (!s.phase.Polling? ==> !t.phase.Polling?)
    decreases |steps|
  {
    if steps != [] { NoPollAfterQuit(Apply(s, steps[0]), steps[1..], t); }
  }

  /** And it leaves at its next test: after a `quit` in the loop, or by another thread, its own steps run what is
      pending and end in the return of `loop()`. */
  lemma QuitLeaves(s: State, a: Step) returns (steps: seq<Step>, t: State)
    requires Enabled(s, a) && (a.LoopQuit? || a.ForeignQuit?) && (s.phase.Dispatching? || s.phase.Calling?)
    ensures Reaches(s, [a] + steps + [Test], t) && t.phase.Left?
    ensures t.executed == s.executed + Batch(s) + (if s.phase.Calling? then [] else s.pending)
  {
    var s1 := Apply(s, a);
    var u;
    steps, u := IterationRunsAll(s1);
    NoPollAfterQuit(s1, steps, u);
    t := Apply(u, Test);
    RunOn(s1, steps, u, Test);
    assert ([a] + steps + [Test])[1..] == steps + [Test];
  }

  lemma {:induction false} RunOn(s: State, steps: seq<Step>, t: State, a: Step)
    requires Reaches(s, steps, t) && Enabled(t, a)
    ensures Reaches(s, steps + [a], Apply(t, a))
    decreases |steps|
  {
    if steps == [] {
      assert [a][1..] == [] && steps + [a] == [a];
    } else {
      RunOn(Apply(s, steps[0]), steps[1..], t, a);
      assert (steps + [a])[1..] == steps[1..] + [a];
    }
  }

  /** A wakeup that has been handled is used up: with nothing queued the loop comes back to a poll that can block. */
  lemma WakeupIsUsedUp(s: State) returns (t: State)
    requires s.phase.Dispatching? && s.pending == [] && !s.quit
    ensures Reaches(s, [HandleWakeup, SwapPending, EndCalls, Test], t)
    ensures t.phase.Polling? && t.counter == 0 && t.pending == []
  {
    var s1 := Apply(s, HandleWakeup);
    var s2 := Apply(s1, SwapPending);
    var s3 := Apply(s2, EndCalls);
    t := Apply(s3, Test);
    var steps := [HandleWakeup, SwapPending, EndCalls, Test];
    assert steps[1..] == [SwapPending, EndCalls, Test] && steps[1..][1..] == [EndCalls, Test];
    assert [EndCalls, Test][1..] == [Test] && [Test][1..] == [];
    assert Reaches(t, [], t);
    assert Reaches(s3, [Test], t);
    assert Reaches(s2, [EndCalls, Test], t);
    assert Reaches(s1, [SwapPending, EndCalls, Test], t);
  }

  /** The next step of the loop thread within an iteration. */
  lemma OwnStep(s: State) returns (a: Step, s1: State)
    requires s.phase.Dispatching? || s.phase.Calling?
    ensures Enabled(s, a) && s1 == Apply(s, a)
    ensures if s.phase.Dispatching? then
              s1.phase.Calling? && s1.phase.batch == s.pending && s1.pending == [] && s1.executed == s.executed
              && !a.EndCalls?
            else if s.phase.batch != [] then
              s1.phase.Calling? && s1.phase.batch == s.phase.batch[1..] && s1.pending == s.pending
              && s1.executed == s.executed + [s.phase.batch[0]] && !a.EndCalls?
            else s1.phase.AtTest? && s1.pending == s.pending && s1.executed == s.executed && a.EndCalls?
  {
    a := if s.phase.Dispatching? then SwapPending else if s.phase.batch != [] then RunNext else EndCalls;
    s1 := Apply(s, a);
  }
}
