/**
 `ThreadPool` of ThreadPool.h as an object. Each method is one section under the mutex, or one
 event outside it, and its effect is the step of the same name in ThreadPoolProtocol.
 */
module ThreadPool {
  import opened ThreadPoolProtocol

  class Pool {
    const coreThreads: nat
    const maxThreads: nat
    var workers: seq<nat>          // handles of the threads in the pool
    var tasks: multiset<Task>
    var stop: bool
    var accepting: bool
    var threads: seq<Worker>       // where each thread is
    var toJoin: seq<nat>
    var nextId: nat
    // History and position of the stopping thread
    ghost var phase: StopPhase
    ghost var graceful: bool
    ghost var notifies: nat
    ghost var accepted: multiset<Task>
    ghost var done: multiset<Task>
    ghost var dropped: multiset<Task>

    ghost function View(): State
      reads this
    {
      State(coreThreads, maxThreads, threads, workers, toJoin, tasks, stop, accepting, phase, graceful,
            notifies, accepted, done, dropped, nextId)
    }

    ghost predicate Valid()
      reads this
    {
      Inv(View())
    }

    constructor Start(core: nat, max: nat)
      requires core > 0
      ensures Valid() && Init(View()) && coreThreads == core
      ensures maxThreads == if max > 0 then max else core
    {
      coreThreads := core;
      maxThreads := if max > 0 then max else core;
      workers, threads, toJoin, tasks := [], [], [], multiset{};
      stop, accepting, nextId := false, true, 0;
      phase, graceful, notifies := NotStopped, false, 0;
      accepted, done, dropped := multiset{}, multiset{}, multiset{};
      new;
      for i := 0 to core
        invariant |threads| == |workers| == i
        invariant forall w :: 0 <= w < i ==> threads[w].Ready? && workers[w] == w
        invariant toJoin == [] && tasks == multiset{} && !stop && accepting && nextId == 0
        invariant phase == NotStopped && notifies == 0
        invariant accepted == multiset{} && done == multiset{} && dropped == multiset{}
      {
        AddThread();
      }
      InitInv(View());
    }

    /** The constructor rejects a pool without core threads. */
    static method Create(core: nat, max: nat) returns (pool: Pool?)
      ensures pool == null <==> core == 0
      ensures pool != null ==> fresh(pool) && pool.Valid() && Init(pool.View()) && pool.coreThreads == core
    {
      if core == 0 {
        return null;
      }
      pool := new Pool.Start(core, max);
    }

    /** `add_thread`: the new thread heads for the top of its loop. */
    method AddThread()
      modifies this`threads, this`workers
      ensures threads == old(threads) + [Ready] && workers == old(workers) + [|old(threads)|]
    {
      workers := workers + [|threads|];
      threads := threads + [Ready];
    }

    /** The section of `submit_impl`; a pool that is shutting down refuses the task. */
    method SubmitImpl(priority: int) returns (ok: bool)
      modifies this
      ensures ok == old(accepting)
      ensures !ok ==> View() == old(View())
      ensures ok ==> View() == Submit(old(View()), priority)
    {
      ok := accepting;
      if ok {
        PushTask(priority);
        if |tasks| > |workers| && |workers| < maxThreads {
          AddThread();
        }
      }
    }

    /** The task joins the queue, and a notification is due. */
    method PushTask(priority: int)
      modifies this`nextId, this`tasks, this`accepted, this`notifies
      ensures var s := old(View()); var t := Task(s.nextId, priority);
              View() == s.(queue := s.queue + multiset{t}, accepted := s.accepted + multiset{t},
                           nextId := s.nextId + 1, notifies := s.notifies + 1)
    {
      var t := Task(nextId, priority);
      nextId := nextId + 1;
      tasks := tasks + multiset{t};
      accepted := accepted + multiset{t};
      notifies := notifies + 1;
    }

    /** `cv_.notify_one()` after a submission, when thread `w` is the one released. */
    method NotifyOneOf(w: nat)
      requires CanNotifyOne(View(), w)
      modifies this
      ensures View() == NotifyOne(old(View()), w)
    {
      threads := threads[w := Notified];
      notifies := notifies - 1;
    }

    /** `cv_.notify_one()` when nobody waits: the notification is lost. */
    method NotifyNobody()
      requires CanNotifyNobody(View())
      modifies this
      ensures View() == old(View()).(notifies := old(notifies) - 1)
    {
      notifies := notifies - 1;
    }

    /** A waiting thread wakes by itself, spuriously or because its second is over. */
    method WakeByItself(w: nat, timeout: bool)
      requires w < |threads| && threads[w].Waiting? && (timeout ==> maxThreads > coreThreads)
      modifies this
      ensures View() == Set(old(View()), w, if timeout then TimedOut else Notified)
    {
      var next := if timeout then TimedOut else Notified;
      threads := threads[w := next];
    }

    /** One pass of `worker_loop` through its locked section, up to the next release of the mutex:
        the thread sleeps, goes round, leaves the pool, returns, or walks off with a task that no
        waiting task precedes in priority. */
    method WorkerSection(w: nat) returns (task: seq<Task>)
      requires w < |threads| && Up(threads[w])
      modifies this
      ensures task != [] <==> old(tasks) != multiset{}
      ensures task != [] ==> IsTop(old(tasks), task[0]) && View() == Take(old(View()), w, task[0])
      ensures task == [] && old(stop) ==> View() == Set(old(View()), w, Exited)
      ensures task == [] && !old(stop) && !old(threads[w]).TimedOut? ==> View() == Set(old(View()), w, Waiting)
      ensures task == [] && !old(stop) && old(threads[w]).TimedOut? ==>
                View() == if |old(workers)| > coreThreads then ScaleDown(old(View()), w) else Set(old(View()), w, Ready)
    {
      if tasks == multiset{} && !stop {
        WaitOrLeave(w);
        return [];
      }
      if stop && tasks == multiset{} {
        threads := threads[w := Exited];
        return [];
      }
      var t := TakeTask(w);
      return [t];
    }

    /** With nothing to do and no stop: wait, and after a wait that has timed out leave the pool or go round. */
    method WaitOrLeave(w: nat)
      requires w < |threads| && Up(threads[w])
      modifies this`threads, this`workers
      ensures View() == if !old(threads[w]).TimedOut? then Set(old(View()), w, Waiting)
                        else if |old(workers)| > coreThreads then ScaleDown(old(View()), w)
                        else Set(old(View()), w, Ready)
    {
      if !threads[w].TimedOut? {
        threads := threads[w := Waiting];
      } else if |workers| > coreThreads {
        RemoveThisThread(w);
        threads := threads[w := Detached];
      } else {
        threads := threads[w := Ready];
      }
    }

    /** `tasks_.top()` and `tasks_.pop()` */
    method TakeTask(w: nat) returns (t: Task)
      requires w < |threads| && Up(threads[w]) && tasks != multiset{}
      modifies this`tasks, this`threads
      ensures IsTop(old(tasks), t) && View() == Take(old(View()), w, t)
    {
      TopExists(tasks);
      t :| t in tasks && forall u :: u in tasks ==> t.priority <= u.priority;
      tasks := tasks - multiset{t};
      threads := threads[w := Running(t)];
    }

    /** `remove_this_thread`: drops the first handle of the calling thread. */
    method RemoveThisThread(w: nat)
      modifies this`workers
      ensures workers == Erase(old(workers), w)
    {
      var i := 0;
      while i < |workers|
        invariant 0 <= i <= |workers| && workers == old(workers)
        invariant Erase(workers, w) == workers[..i] + Erase(workers[i..], w)
      {
        assert workers[i..] == [workers[i]] + workers[i + 1..];
        if workers[i] == w {
          workers := workers[..i] + workers[i + 1..];
          return;
        }
        assert workers[..i + 1] == workers[..i] + [workers[i]];
        i := i + 1;
      }
      assert workers == workers[..i] + [];
    }

    /** A running task ends, normally or by an exception. */
    method FinishTask(w: nat)
      requires CanFinish(View(), w)
      modifies this
      ensures View() == Finish(old(View()), w)
    {
      done := done + multiset{threads[w].task};
      threads := threads[w := Ready];
    }

    /** The section of `wait_and_stop`; later stop calls return at once. */
    method WaitAndStopSection() returns (first: bool)
      modifies this
      ensures first == old(accepting)
      ensures View() == if first then Stop(old(View()), true) else old(View())
    {
      if !accepting {
        return false;
      }
      BeginStop(true);
      return true;
    }

    /** What both stop calls set. */
    method BeginStop(gracefully: bool)
      modifies this`accepting, this`stop, this`phase, this`graceful
      ensures View() == old(View()).(stop := true, accepting := false, phase := MustNotify, graceful := gracefully)
    {
      accepting, stop := false, true;
      phase, graceful := MustNotify, gracefully;
    }

    /** The section of `stop_immediately`; later stop calls return at once. */
    method StopImmediatelySection() returns (first: bool)
      modifies this
      ensures first <==> old(accepting) || !old(stop)
      ensures first ==> View() == Stop(old(View()), false)
      ensures !first ==> View() == old(View())
    {
      if !accepting && stop {
        return false;
      }
      DropAndStop();
      return true;
    }

    method DropAndStop()
      modifies this`tasks, this`dropped, this`accepting, this`stop, this`phase, this`graceful
      ensures View() == Stop(old(View()), false)
    {
      DropTasks();
      BeginStop(false);
    }

    /** Swapping the queue with an empty one. */
    method DropTasks()
      modifies this`tasks, this`dropped
      ensures View() == old(View()).(queue := multiset{}, dropped := old(dropped) + old(tasks))
    {
      dropped := dropped + tasks;
      tasks := multiset{};
    }

    /** `cv_.notify_all()` by the stopping thread. */
    method NotifyAllWaiting()
      requires phase.MustNotify?
      modifies this
      ensures View() == NotifyAll(old(View()))
    {
      threads := WakeAll(threads);
      phase := MustSwap;
    }

    /** The section of `join_all_workers`: the handles move to the stopping thread. */
    method SwapWorkers()
      requires phase.MustSwap?
      modifies this
      ensures View() == Swap(old(View()))
    {
      toJoin, workers := workers, [];
      phase := Joining;
    }

    /** One `join` that succeeds because its thread has returned. */
    method JoinNext()
      requires CanJoin(View())
      modifies this
      ensures View() == Join(old(View()))
    {
      toJoin := toJoin[1..];
    }

    /** The stop call that took effect returns: nothing is queued or in progress any more, and after a
        `wait_and_stop` everything ever accepted has been executed. */
    method StopReturns()
      requires Valid() && CanReturn(View())
      modifies this
      ensures Valid() && View() == old(View()).(phase := Returned)
      ensures tasks == multiset{} && accepted == done + dropped
      ensures graceful ==> accepted == done
    {
      ReturnInv(View());
      phase := Returned;
      AllDone(View());
    }
  }
}
