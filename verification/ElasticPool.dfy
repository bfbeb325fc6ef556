/**
 The size of the thread pool over a run: it grows with the demand and shrinks back when there is none. And the order
 in which tasks run, and the ones that never do.
 */
module ElasticPool {
  import opened ThreadPoolProtocol

  /** There is a thread for every queued task, or as many threads as allowed. */
  predicate Enough(s: State) { |s.queue| <= |s.pool| || |s.pool| >= s.max }

  /** What a submission does to the threads: it adds none, or one, which is about to look at the queue, belongs to the
      pool and was allowed; every other thread goes on as it was. */
  lemma SubmitAddsOne(s: State, priority: int)
    requires s.accepting
    ensures var t := Submit(s, priority);
            && |t.queue| == |s.queue| + 1
            && ((t.workers == s.workers && t.pool == s.pool)
                || (|s.pool| < s.max && t.workers == s.workers + [Ready] && t.pool == s.pool + [|s.workers|]))
  {
  }

  lemma SubmitEnough(s: State, priority: int)
    requires s.accepting && Enough(s)
    ensures Enough(Submit(s, priority))
  {
    assert |s.queue + multiset{Task(s.nextId, priority)}| == |s.queue| + 1;
  }

  lemma StepEnough(s: State, a: Step)
    requires Inv(s) && Enough(s) && Enabled(s, a) && Apply(s, a).accepting
    ensures s.accepting && Enough(Apply(s, a)) && Apply(s, a).max == s.max
  {
    if a.StepSubmit? {
      SubmitEnough(s, a.priority);
    } else if a.StepTake? {
      TakeEnough(s, a.w, a.task);
    } else {
      OtherEnough(s, a);
    }
  }

  lemma TakeEnough(s: State, w: nat, t: Task)
    requires Enough(s) && CanTake(s, w, t)
    ensures Enough(Take(s, w, t))
  {
    TakenOut(s.queue, t);
  }

  /** Every other step leaves the pool as it is, or the queue empty. */
  lemma OtherEnough(s: State, a: Step)
    requires Inv(s) && Enough(s) && Enabled(s, a) && Apply(s, a).accepting && !a.StepSubmit? && !a.StepTake?
    ensures s.accepting && Enough(Apply(s, a)) && Apply(s, a).max == s.max
  {
  }

  /** In every run up to a stop there is a thread for every queued task, unless the pool is as large as it may be. */
  lemma {:induction false} GrowsWithDemand(s: State, steps: seq<Step>, t: State)
    requires Inv(s) && Enough(s) && Reaches(s, steps, t) && t.accepting
    ensures Enough(t) && s.accepting
    decreases |steps|
  {
    if steps != [] {
      StepInv(s, steps[0]);
      if Apply(s, steps[0]).accepting {
        StepEnough(s, steps[0]);
        GrowsWithDemand(Apply(s, steps[0]), steps[1..], t);
      } else {
        NotAcceptingAgain(Apply(s, steps[0]), steps[1..], t);
      }
    }
  }

  lemma {:induction false} NotAcceptingAgain(s: State, steps: seq<Step>, t: State)
    requires !s.accepting && Reaches(s, steps, t)
    ensures !t.accepting
    decreases |steps|
  {
    if steps != [] {
      StaysClosed(s, steps[0]);
      NotAcceptingAgain(Apply(s, steps[0]), steps[1..], t);
    }
  }

  lemma StaysClosed(s: State, a: Step)
    requires !s.accepting && Enabled(s, a)
    ensures !Apply(s, a).accepting
  {
  }

  lemma InitEnough(s: State)
    requires Init(s)
    ensures Inv(s) && Enough(s)
  {
    InitInv(s);
  }

  // -------------------------------------------------------------- shrinking

  /** A thread of a larger pool whose wait is over with nothing to do can only leave; it is then in the pool no more,
      and everybody else is as before. */
  lemma IdleThreadLeaves(s: State, w: nat, a: Step)
    requires Inv(s) && !s.stop && s.queue == multiset{} && |s.pool| > s.core
    requires w < |s.workers| && s.workers[w].TimedOut? && w in s.pool
    ensures Enabled(s, StepScaleDown(w))
    ensures Enabled(s, a) && a.StepSleep? ==> a.w != w
    ensures Enabled(s, a) && a.StepGoRound? ==> a.w != w
    ensures Enabled(s, a) && a.StepTake? ==> a.w != w
    ensures Enabled(s, a) && a.StepExit? ==> a.w != w
    ensures var t := Apply(s, StepScaleDown(w));
            && t.workers == s.workers[w := Detached] && |t.pool| == |s.pool| - 1 && w !in t.pool
            && (forall v :: v in t.pool <==> v in s.pool && v != w)
            && t.queue == s.queue && t.notifies == s.notifies && !t.stop
  {
    EraseOne(s.pool, w);
  }

  /** In a pool of core size it goes round instead, and nothing else changes. */
  lemma CoreThreadGoesRound(s: State, w: nat)
    requires !s.stop && s.queue == multiset{} && |s.pool| <= s.core && w < |s.workers| && s.workers[w].TimedOut?
    ensures Enabled(s, StepGoRound(w)) && !Enabled(s, StepScaleDown(w)) && !Enabled(s, StepSleep(w))
    ensures Apply(s, StepGoRound(w)) == s.(workers := s.workers[w := Ready])
  {
  }

  /** Nothing to do: no task, and every thread of the pool asleep. */
  ghost predicate AllAsleep(s: State) {
    !s.stop && s.queue == multiset{} && forall w :: w in s.pool ==> w < |s.workers| && s.workers[w].Waiting?
  }

  /** The first thread of an idle pool waits in vain. */
  lemma OneTimesOut(s: State) returns (w: nat, t: State)
    requires Inv(s) && AllAsleep(s) && |s.pool| > 0 && s.max > s.core
    ensures Enabled(s, StepTimeout(w)) && t == Apply(s, StepTimeout(w)) && Inv(t)
    ensures w in s.pool && w < |t.workers| && t.workers == s.workers[w := TimedOut]
    ensures t == s.(workers := t.workers)
  {
    w := s.pool[0];
    assert w in s.pool;
    t := Apply(s, StepTimeout(w));
    StepInv(s, StepTimeout(w));
  }

  /** And leaves. */
  lemma OneLeaves(s: State) returns (w: nat, s1: State, t: State)
    requires Inv(s) && AllAsleep(s) && |s.pool| > s.core && s.max > s.core
    ensures Enabled(s, StepTimeout(w)) && s1 == Apply(s, StepTimeout(w))
    ensures Enabled(s1, StepScaleDown(w)) && t == Apply(s1, StepScaleDown(w))
    ensures Inv(t) && AllAsleep(t) && |t.pool| == |s.pool| - 1 && t.core == s.core && t.max == s.max
  {
    w, s1 := OneTimesOut(s);
    t := GoesAway(s1, w);
    StillAsleep(s, s1, t, w);
  }

  lemma GoesAway(s: State, w: nat) returns (t: State)
    requires Inv(s) && !s.stop && s.queue == multiset{} && |s.pool| > s.core
    requires w < |s.workers| && s.workers[w].TimedOut? && w in s.pool
    ensures Enabled(s, StepScaleDown(w)) && t == Apply(s, StepScaleDown(w)) && Inv(t)
    ensures t.workers == s.workers[w := Detached] && |t.pool| == |s.pool| - 1 && t.core == s.core && t.max == s.max
    ensures (forall v :: v in t.pool <==> v in s.pool && v != w) && t.queue == s.queue && !t.stop
  {
    IdleThreadLeaves(s, w, StepScaleDown(w));
    t := Apply(s, StepScaleDown(w));
    StepInv(s, StepScaleDown(w));
  }

  lemma StillAsleep(s: State, s1: State, t: State, w: nat)
    requires AllAsleep(s) && w < |s.workers| && s1 == s.(workers := s.workers[w := TimedOut])
    requires t.workers == s1.workers[w := Detached] && t.queue == s1.queue && !t.stop
    requires forall v :: v in t.pool <==> v in s1.pool && v != w
    ensures AllAsleep(t)
  {
  }

  /** An idle pool shrinks back to its core: from every reachable state without a task in which all threads are asleep,
      two steps of each surplus thread do it. */
  lemma {:induction false} ShrinksToCore(s: State) returns (steps: seq<Step>, t: State)
    requires Inv(s) && AllAsleep(s) && s.max > s.core
    ensures Reaches(s, steps, t) && |t.pool| == s.core <= |s.pool| && |steps| == 2 * (|s.pool| - s.core)
    ensures forall a :: a in steps ==> a.StepTimeout? || a.StepScaleDown?
    decreases |s.pool|
  {
    if |s.pool| > s.core {
      var w, s1, s2 := OneLeaves(s);
      var rest;
      rest, t := ShrinksToCore(s2);
      var later := OneBefore(s1, StepScaleDown(w), s2, rest, t);
      steps := OneBefore(s, StepTimeout(w), s1, later, t);
    } else {
      steps, t := [], s;
    }
  }

  lemma OneBefore(s: State, a: Step, s1: State, rest: seq<Step>, t: State) returns (steps: seq<Step>)
    requires Enabled(s, a) && s1 == Apply(s, a) && Reaches(s1, rest, t)
    ensures steps == [a] + rest && Reaches(s, steps, t)
  {
    steps := [a] + rest;
    assert steps[1..] == rest;
  }

  // ------------------------------------------------- which tasks run, and when

  /** Only a task than which no queued one is more urgent is started; the smaller number is the more urgent. */
  lemma MostUrgentFirst(s: State, w: nat, t: Task, u: Task)
    requires Enabled(s, StepTake(w, t)) && u in s.queue
    ensures t in s.queue && t.priority <= u.priority
  {
  }

  /** A stop that does not wait empties the queue; no task that was in it has begun. */
  lemma StopDropsQueue(s: State)
    requires Inv(s) && s.accepting
    ensures var t := Apply(s, StepStop(false));
            t.queue == multiset{} && forall x :: x in s.queue ==> Dropped(t, x)
  {
    forall x | x in s.queue ensures Dropped(Apply(s, StepStop(false)), x) {
      assert s.accepted[x] == s.queue[x] + InProgress(s.workers)[x] + s.done[x] + s.dropped[x];
    }
  }

  /** The task has been dropped, and has neither run nor begun to. */
  ghost predicate Dropped(s: State, x: Task) {
    x in s.dropped && x !in s.queue && x !in InProgress(s.workers) && x !in s.done
  }

  lemma StepKeepsDropped(s: State, a: Step)
    requires Enabled(s, a)
    ensures s.dropped <= Apply(s, a).dropped && s.accepted <= Apply(s, a).accepted
  {
  }

  /** And it never will: in every run a dropped task stays dropped and does not run. */
  lemma {:induction false} DroppedNeverRuns(s: State, steps: seq<Step>, t: State, x: Task)
    requires Inv(s) && Reaches(s, steps, t) && Dropped(s, x)
    ensures Dropped(t, x)
    decreases |steps|
  {
    if steps != [] {
      var s1 := Apply(s, steps[0]);
      StepInv(s, steps[0]);
      StepKeepsDropped(s, steps[0]);
      OnePlace(s1, x);
      DroppedNeverRuns(s1, steps[1..], t, x);
    }
  }

  lemma OnePlace(s: State, x: Task)
    requires Accounted(s) && x in s.dropped
    ensures Dropped(s, x)
  {
    assert s.accepted[x] == s.queue[x] + InProgress(s.workers)[x] + s.done[x] + s.dropped[x];
    assert x in s.accepted;
  }
}
