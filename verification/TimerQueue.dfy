/**
 `TimerQueue` (TimerQueue.cpp): a heap of timers, the set used to look timers up for
 cancellation, and a one-shot timerfd. Time is one integer clock in microseconds.
 */
module TimerQueue {
  import opened Basics
  import opened TimerSchedule
  import opened TimerCallbacks
  import opened MinHeap
  import opened TimerHeap

  /** How the timerfd was last set: for this expiry, at this moment. `None` once it has been read. */
  datatype Arming = Arming(expiry: int, at: int)

  /** When the kernel reports the timerfd: `howMuchTimeFromNow` waits at least 100 microseconds. */
  function FireTime(a: Arming): (t: int)
    ensures t >= a.expiry && t >= a.at + 100 && (t == a.expiry || t == a.at + 100)
  {
    var microseconds := a.expiry - a.at;
    a.at + (if microseconds < 100 then 100 else microseconds)
  }

  class Queue {
    var timers: seq<Slot<Timer>>
    var activeTimers: set<Timer>
    var armed: Option<Arming>
    var callingExpiredTimers: bool
    ghost var due: map<Timer, int>   // the timers in the heap with their expiries
    ghost var batch: set<Timer>      // expired and not yet restarted or deleted
    ghost var deleted: set<Timer>
    ghost var known: set<Timer>      // every timer ever inserted

    /** Heap order, and one slot per active timer: the set used for cancellation is the set of the heap's timers. */
    ghost predicate HeapOk()
      reads this
    {
      HeapOf(timers, due) && activeTimers == due.Keys
    }

    /** Every timer is in exactly one of heap, running batch, and deleted. */
    ghost predicate Partition()
      reads this
    {
      Parts(known, activeTimers, batch, deleted)
    }

    ghost predicate Valid()
      reads this
    {
      HeapOk() && Partition()
    }

    /** The timerfd is set for a time no later than the earliest expiry. */
    ghost predicate Armed()
      reads this
    {
      timers != [] ==> armed.Some? && armed.value.expiry <= timers[0].key
    }

    /** No timer is stranded: the kernel reports the timerfd before or at every expiry, or, if an expiry was too near
        when the timerfd was set, after the 100 microseconds it waits at least. */
    lemma FiresInTime(t: Timer)
      requires Valid() && Armed() && t in due
      ensures armed.Some? && FireTime(armed.value) <= Max(due[t], armed.value.at + 100)
    {
      TimerIn(timers, due, t);
      var i :| 0 <= i < |timers| && timers[i].timer == t;
      SlotIn(timers, due, i);
      FrontIsLeast(timers, i);
    }

    /** While expired timers are being run this is known of invalid expiries only. */
    ghost predicate ArmedIfInvalid()
      reads this
    {
      timers != [] && timers[0].key <= 0 ==> armed.Some? && armed.value.expiry <= timers[0].key
    }

    constructor ()
      ensures Valid() && Armed() && known == {}
    {
      timers, activeTimers, armed, callingExpiredTimers := [], {}, None, false;
      due, batch, deleted, known := map[], {}, {}, {};
    }

    /** The clock, read again: any moment from `now` on. */
    method ReadClock(now: int) returns (at: int)
      ensures at >= now
    {
      at := *;
      if at < now { at := now; }
    }

    /** `resetTimerfd`, some time after `now` was read. */
    method ResetTimerfd(expiry: int, now: int)
      modifies this`armed
      ensures armed.Some? && armed.value.expiry == expiry && armed.value.at >= now
    {
      var at := ReadClock(now);
      armed := Some(Arming(expiry, at));
    }

    /** `insert`, of a timer that is not in the heap. */
    method Insert(timer: Timer, now: int) returns (earliestChanged: bool)
      requires HeapOk() && timer !in activeTimers
      modifies this`timers, this`activeTimers, this`armed, this`due
      ensures HeapOk() && due == old(due)[timer := timer.expiration] && activeTimers == old(activeTimers) + {timer}
      ensures earliestChanged <==> old(timers == []) || timer.expiration < old(timers)[0].key
      ensures if earliestChanged then armed.Some? && armed.value.expiry == timer.expiration && armed.value.at >= now
              else armed == old(armed)
      ensures old(Armed()) ==> Armed()
      ensures old(ArmedIfInvalid()) ==> ArmedIfInvalid()
    {
      earliestChanged := timers == [] || timer.expiration < timers[0].key;
      timers := InsertSlot(timers, due, Slot(timer, timer.expiration));
      activeTimers := activeTimers + {timer};
      due := due[timer := timer.expiration];
      if earliestChanged {
        ResetTimerfd(timer.expiration, now);
      }
    }

    /** The insertion behind `addTimer`, of a timer the queue has not seen. */
    method InsertNew(timer: Timer, now: int)
      requires Valid() && timer !in known
      modifies this`timers, this`activeTimers, this`armed, this`due, this`known
      ensures Valid() && known == old(known) + {timer} && due == old(due)[timer := timer.expiration]
      ensures old(Armed()) ==> Armed()
      ensures old(ArmedIfInvalid()) ==> ArmedIfInvalid()
    {
      PartsAdd(known, activeTimers, batch, deleted, timer);
      var earliestChanged := Insert(timer, now);
      known := known + {timer};
    }

    /** The part of `cancel` that takes an active timer out of the set and the heap. */
    method Erase(timer: Timer)
      requires HeapOk() && timer in activeTimers
      modifies this`timers, this`activeTimers, this`due
      ensures HeapOk() && due == old(due) - {timer} && activeTimers == old(activeTimers) - {timer}
      ensures timers != [] ==> old(timers) != [] && old(timers)[0].key <= timers[0].key
    {
      activeTimers := activeTimers - {timer};
      timers := EraseSlot(timers, due, timer);
      due := due - {timer};
    }

    /** `cancel`, run in the loop: a timer in the heap leaves it for good; any other timer, in particular one of
        the batch being run, is left alone. */
    method Cancel(timer: Timer)
      requires Valid()
      modifies this`timers, this`activeTimers, this`due, this`deleted
      ensures Valid() && due == old(due) - {timer}
      ensures deleted == if timer in old(activeTimers) then old(deleted) + {timer} else old(deleted)
      ensures old(Armed()) ==> Armed()
      ensures old(ArmedIfInvalid()) ==> ArmedIfInvalid()
    {
      if timer in activeTimers {
        CancelActive(timer);
      } else {
        CancelledIs(due, timer);
      }
    }

    method CancelActive(timer: Timer)
      requires Valid() && timer in activeTimers
      modifies this`timers, this`activeTimers, this`due, this`deleted
      ensures Valid() && due == old(due) - {timer} && deleted == old(deleted) + {timer}
      ensures timers != [] ==> old(timers) != [] && old(timers)[0].key <= timers[0].key
    {
      PartsCancel(known, activeTimers, batch, deleted, timer);
      Erase(timer);
      deleted := deleted + {timer};
    }

    /** `getExpired`: slots leave the heap in order of expiry, and their timers the active set, until the front is not
        due. */
    method GetExpired(now: int) returns (expired: seq<Timer>, ghost taken: seq<Slot<Timer>>)
      requires HeapOk()
      modifies this`timers, this`activeTimers, this`due
      ensures HeapOk() && due == old(due) - Elements(expired) && Elements(expired) <= old(activeTimers)
      ensures activeTimers == old(activeTimers) - Elements(expired)
      ensures Taken(old(timers), now, timers, taken) && expired == TimersOf(taken)
      ensures timers != [] ==> timers[0].key > now
      ensures DueOnes(old(due), now, expired)
    {
      ghost var before := timers;
      timers, activeTimers, expired, taken := TakeDue(timers, activeTimers, now);
      TakenLeft(multiset(before), due, taken, multiset(timers));
      TakenAreDueOnes(before, due, now, timers, taken);
      due := due - Elements(expired);
    }

    /** A timer of the batch goes back into the heap. */
    method Reinsert(timer: Timer, now: int)
      requires Valid() && timer in batch
      modifies this`timers, this`activeTimers, this`armed, this`due, this`batch
      ensures Valid() && batch == old(batch) - {timer} && due == old(due)[timer := timer.expiration]
      ensures old(ArmedIfInvalid()) ==> ArmedIfInvalid()
    {
      PartsReset(known, activeTimers, batch, deleted, timer);
      var changed := Insert(timer, now);
      batch := batch - {timer};
    }

    /** `reset` starts a repeating timer again. */
    method RestartTimer(timer: Timer, now: int, ghost added: nat)
      requires Valid() && ArmedIfInvalid() && timer in batch && timer.repeats
      modifies this`timers, this`activeTimers, this`armed, this`due, this`batch, timer
      ensures Valid() && ArmedIfInvalid() && batch == old(batch) - {timer} && timer.expiration == now + timer.interval
      ensures State(added) == ResetTo(old(State(added)), timer, now)
    {
      timer.Restart(now);
      Reinsert(timer, now);
    }

    /** `reset` deletes any other timer. */
    method DeleteTimer(timer: Timer, ghost added: nat)
      requires Valid() && timer in batch && !timer.repeats
      modifies this`batch, this`deleted
      ensures Valid() && batch == old(batch) - {timer}
      ensures State(added) == ResetTo(old(State(added)), timer, 0)
    {
      PartsReset(known, activeTimers, batch, deleted, timer);
      batch := batch - {timer};
      deleted := deleted + {timer};
    }

    /** `reset`: afterwards nothing is left in the batch, and the timerfd covers whatever is in the heap, although an
        invalid front is not armed for here. */
    method Reset(expired: seq<Timer>, now: int, ghost added: nat)
      requires Valid() && ArmedIfInvalid() && IsBatch(expired, batch)
      modifies this`timers, this`activeTimers, this`armed, this`due, this`batch, this`deleted, batch
      ensures Valid() && batch == {} && Armed()
      ensures State(added) == AfterReset(old(State(added)), expired, now)
      ensures forall i :: 0 <= i < |expired| ==> WasReset(expired[i], now)
    {
      ghost var s := State(added);
      BatchNotDue(expired);
      ResetAll(expired, now, added);
      Rearm(now);
      forall i | 0 <= i < |expired| ensures WasReset(expired[i], now) {
        ResetIs(s, expired, now, expired[i]);
      }
    }

    lemma BatchNotDue(expired: seq<Timer>)
      requires Valid() && IsBatch(expired, batch)
      ensures forall i :: 0 <= i < |expired| ==> expired[i] !in due
    {
    }

    /** The loop of `reset`. */
    method ResetAll(expired: seq<Timer>, now: int, ghost added: nat)
      requires Valid() && ArmedIfInvalid() && IsBatch(expired, batch)
      modifies this`timers, this`activeTimers, this`armed, this`due, this`batch, this`deleted, batch
      ensures Valid() && ArmedIfInvalid() && batch == {}
      ensures State(added) == AfterReset(old(State(added)), expired, now)
      ensures Restarted(expired, |expired|, now)
    {
      ghost var s := State(added);
      assert expired[0..] == expired;
      for i := 0 to |expired|
        invariant Valid() && ArmedIfInvalid() && batch == Elements(expired[i..])
        invariant State(added) == AfterReset(s, expired[..i], now) && Restarted(expired, i, now)
      {
        assert expired[i] in expired[i..];
        RemainingBatch(expired, i);
        ResetOne(expired[i], now, added);
        assert expired[..i + 1][..i] == expired[..i];
      }
      assert expired[..|expired|] == expired;
    }

    /** The repeating ones of the first `i` expired timers carry their new expiry. */
    ghost predicate Restarted(expired: seq<Timer>, i: nat, now: int)
      reads expired
    {
      forall k :: 0 <= k < i && k < |expired| && expired[k].repeats ==>
        expired[k].expiration == now + expired[k].interval
    }

    /** A repeating timer is in the heap again, one interval from now; any other is deleted. */
    ghost predicate WasReset(t: Timer, now: int)
      reads this, t
    {
      if t.repeats then t in due && due[t] == t.expiration == now + t.interval else t in deleted
    }

    /** One turn of the loop of `reset`. */
    method ResetOne(timer: Timer, now: int, ghost added: nat)
      requires Valid() && ArmedIfInvalid() && timer in batch
      modifies this`timers, this`activeTimers, this`armed, this`due, this`batch, this`deleted, timer
      ensures Valid() && ArmedIfInvalid() && batch == old(batch) - {timer}
      ensures State(added) == ResetTo(old(State(added)), timer, now)
      ensures timer.repeats ==> timer.expiration == now + timer.interval
    {
      if timer.repeats {
        RestartTimer(timer, now, added);
      } else {
        DeleteTimer(timer, added);
      }
    }

    /** The last part of `reset`. */
    method Rearm(now: int)
      requires ArmedIfInvalid()
      modifies this`armed
      ensures Armed()
    {
      if timers != [] {
        var nextExpire := timers[0].key;
        if nextExpire > 0 {
          ResetTimerfd(nextExpire, now);
        }
      }
    }

    /** The heap and the deleted timers, `added` timers after the timerfd was read. */
    ghost function State(added: nat): Schedule
      reads this
    {
      Schedule(due, deleted, added)
    }

    /** `addTimer` from a callback. */
    method AddOne(op: Op, now: int, made: seq<Timer>) returns (more: seq<Timer>)
      requires Valid() && ArmedIfInvalid() && Elements(made) <= known && op.Add?
      modifies this`timers, this`activeTimers, this`armed, this`due, this`known
      ensures Valid() && ArmedIfInvalid() && fresh(known - old(known))
      ensures Made(made, more, [op], old(known), known)
      ensures State(|more|) == AfterOp(old(State(|made|)), op, more)
    {
      ghost var before, was := known, due;
      var timer := new Timer(op.when, op.interval, op.repeats);
      InsertNew(timer, now);
      more := made + [timer];
      MadeOne(made, timer, op, before);
      assert due == was[timer := op.when];
    }

    /** `cancel` from a callback. */
    method CancelOne(timer: Timer, ghost added: nat)
      requires Valid() && ArmedIfInvalid()
      modifies this`timers, this`activeTimers, this`due, this`deleted
      ensures Valid() && ArmedIfInvalid()
      ensures State(added) == Cancelled(old(State(added)), timer)
    {
      if timer !in due { CancelledIs(due, timer); }
      Cancel(timer);
    }

    /** One operation of a callback; `made` are the timers that callbacks have added so far. */
    method RunOp(op: Op, now: int, made: seq<Timer>) returns (more: seq<Timer>)
      requires Valid() && ArmedIfInvalid() && Elements(made) <= known
      modifies this`timers, this`activeTimers, this`armed, this`due, this`deleted, this`known
      ensures Valid() && ArmedIfInvalid() && fresh(known - old(known))
      ensures Made(made, more, [op], old(known), known)
      ensures State(|more|) == AfterOp(old(State(|made|)), op, more)
    {
      if op.Add? {
        more := AddOne(op, now, made);
      } else {
        more := made;
        MadeNone(made, op, known);
        RunCancel(op, made);
      }
    }

    method RunCancel(op: Op, made: seq<Timer>)
      requires Valid() && ArmedIfInvalid() && !op.Add?
      modifies this`timers, this`activeTimers, this`due, this`deleted
      ensures Valid() && ArmedIfInvalid()
      ensures State(|made|) == AfterOp(old(State(|made|)), op, made)
    {
      if op.CancelTimer? {
        CancelOne(op.timer, |made|);
      } else if op.k < |made| {
        CancelOne(made[op.k], |made|);
      }
    }

    /** What one callback does. */
    method RunOps(ops: seq<Op>, now: int, made: seq<Timer>) returns (more: seq<Timer>)
      requires Valid() && ArmedIfInvalid() && Elements(made) <= known
      modifies this`timers, this`activeTimers, this`armed, this`due, this`deleted, this`known
      ensures Valid() && ArmedIfInvalid() && fresh(known - old(known))
      ensures Made(made, more, ops, old(known), known)
      ensures State(|more|) == AfterOps(old(State(|made|)), ops, more)
    {
      more := made;
      ghost var k0, s0 := known, State(|made|);
      MadeNothing(made, known);
      for i := 0 to |ops|
        invariant Valid() && ArmedIfInvalid() && fresh(known - old(known))
        invariant Made(made, more, ops[..i], k0, known) && State(|more|) == AfterOps(s0, ops[..i], more)
      {
        more := RunNext(ops[i], now, more, made, ops[..i], k0, s0);
        assert ops[..i] + [ops[i]] == ops[..i + 1];
      }
      assert ops[..|ops|] == ops;
    }

    /** One turn of that loop, behind the operations `front`. */
    method RunNext(op: Op, now: int, made: seq<Timer>, ghost m0: seq<Timer>, ghost front: seq<Op>, ghost k0: set<Timer>,
                   ghost s0: Schedule) returns (more: seq<Timer>)
      requires Valid() && ArmedIfInvalid() && s0.added == |m0|
      requires Made(m0, made, front, k0, known) && State(|made|) == AfterOps(s0, front, made)
      modifies this`timers, this`activeTimers, this`armed, this`due, this`deleted, this`known
      ensures Valid() && ArmedIfInvalid() && fresh(known - old(known))
      ensures Made(m0, more, front + [op], k0, known) && State(|more|) == AfterOps(s0, front + [op], more)
    {
      ghost var k1, s1 := known, State(|made|);
      MadeKnown(m0, made, front, k0, known);
      more := RunOp(op, now, made);
      Next(m0, made, more, front, op, k0, k1, known, s0, s1, State(|more|));
    }

    /** The start of `handleRead`: the timerfd is read, and the due timers become the batch. */
    method BeginRead(now: int) returns (expired: seq<Timer>)
      requires Valid() && batch == {} && now > 0
      modifies this`timers, this`activeTimers, this`armed, this`due, this`batch
      ensures Valid() && ArmedIfInvalid() && IsBatch(expired, batch)
      ensures DueOnes(old(due), now, expired) && due == old(due) - Elements(expired)
    {
      armed := None;
      ghost var active := activeTimers;
      assert Parts(known, active, batch, deleted);
      expired := TakeBatch(now);
      PartsExpire(known, active, batch, deleted, Elements(expired));
      batch := Elements(expired);
    }

    /** `getExpired`, as `handleRead` uses it: what is left in the heap is later than `now`. */
    method TakeBatch(now: int) returns (expired: seq<Timer>)
      requires HeapOk()
      modifies this`timers, this`activeTimers, this`due
      ensures HeapOk() && Elements(expired) <= old(activeTimers)
      ensures activeTimers == old(activeTimers) - Elements(expired) && due == old(due) - Elements(expired)
      ensures timers != [] ==> timers[0].key > now
      ensures DueOnes(old(due), now, expired)
    {
      ghost var taken;
      expired, taken := GetExpired(now);
    }

    /** The loop of `handleRead` over the expired timers. */
    method RunCallbacks(expired: seq<Timer>, now: int, callback: Timer -> seq<Op>) returns (made: seq<Timer>)
      requires Valid() && ArmedIfInvalid()
      modifies this`timers, this`activeTimers, this`armed, this`due, this`deleted, this`known, this`callingExpiredTimers
      ensures Valid() && ArmedIfInvalid() && fresh(known - old(known))
      ensures Made([], made, AllOps(expired, callback), old(known), known)
      ensures State(|made|) == AfterOps(old(State(0)), AllOps(expired, callback), made)
      ensures Sections(AllOps(expired, callback), expired, callback)
    {
      ghost var cuts := AllOpsAt(expired, callback);
      callingExpiredTimers := true;
      made := RunEach(expired, now, callback);
      callingExpiredTimers := false;
    }

    method RunEach(expired: seq<Timer>, now: int, callback: Timer -> seq<Op>) returns (made: seq<Timer>)
      requires Valid() && ArmedIfInvalid()
      modifies this`timers, this`activeTimers, this`armed, this`due, this`deleted, this`known
      ensures Valid() && ArmedIfInvalid() && fresh(known - old(known))
      ensures Made([], made, AllOps(expired, callback), old(known), known)
      ensures State(|made|) == AfterOps(old(State(0)), AllOps(expired, callback), made)
    {
      made := [];
      ghost var front: seq<Op> := [];
      ghost var k0, s0 := known, State(0);
      MadeNothing([], known);
      for i := 0 to |expired|
        invariant Valid() && ArmedIfInvalid() && fresh(known - old(known))
        invariant front == AllOps(expired[..i], callback)
        invariant Made([], made, front, k0, known) && State(|made|) == AfterOps(s0, front, made)
      {
        made := RunCallback(callback(expired[i]), now, made, front, k0, s0);
        front := front + callback(expired[i]);
        assert expired[..i + 1][..i] == expired[..i];
      }
      assert expired[..|expired|] == expired;
    }

    /** One callback, behind the operations `front` of those before it. */
    method RunCallback(ops: seq<Op>, now: int, made: seq<Timer>, ghost front: seq<Op>, ghost k0: set<Timer>,
                       ghost s0: Schedule) returns (more: seq<Timer>)
      requires Valid() && ArmedIfInvalid() && s0.added == 0
      requires Made([], made, front, k0, known) && State(|made|) == AfterOps(s0, front, made)
      modifies this`timers, this`activeTimers, this`armed, this`due, this`deleted, this`known
      ensures Valid() && ArmedIfInvalid() && fresh(known - old(known))
      ensures Made([], more, front + ops, k0, known) && State(|more|) == AfterOps(s0, front + ops, more)
    {
      ghost var k1, s1 := known, State(|made|);
      MadeKnown([], made, front, k0, known);
      more := RunOps(ops, now, made);
      MadeConcat([], made, more, front, ops, k0, k1, known);
      OpsConcat(s0, s1, State(|more|), made, more, front, ops);
    }

    /** `handleRead`: reading the timerfd disarms it; exactly the due timers run, in order of expiry; each callback
        runs once, and may add and cancel timers; then repeating timers start again. The operations are those of the
        callbacks, one after the other; what is in the heap afterwards, with which expiry, and what has been deleted,
        is exactly what `AfterRead` makes of them. The timerfd covers the heap again at the end. */
    method HandleRead(now: int, callback: Timer -> seq<Op>)
      returns (expired: seq<Timer>, made: seq<Timer>, ghost ops: seq<Op>)
      requires Valid() && batch == {} && now > 0
      modifies this, known
      ensures Valid() && batch == {} && Armed() && fresh(known - old(known))
      ensures DueOnes(old(due), now, expired)
      ensures Sections(ops, expired, callback) && Made([], made, ops, old(known), known)
      ensures State(|made|) == AfterRead(old(due), old(deleted), expired, ops, made, now)
      ensures AllAdded(expired, callback, made, due)
      ensures forall t: Timer :: t in old(due) && old(due)[t] > now ==>
                if Cancels(expired, callback, t) then t !in due && t in deleted
                else t in due && due[t] == old(due)[t]
      ensures forall i :: 0 <= i < |expired| ==> WasReset(expired[i], now)
    {
      ghost var k0, d0, del0 := known, due, deleted;
      expired := BeginRead(now);
      made := RunBatch(expired, now, callback);
      ops := AllOps(expired, callback);
      ghost var cuts := AllOpsAt(expired, callback);
      NotDueOnes(k0, d0, del0, expired, callback, made, known, now);
      ReadAddsAll(d0, del0, expired, callback, made, k0, known, now);
    }

    /** The rest of `handleRead`. */
    method RunBatch(expired: seq<Timer>, now: int, callback: Timer -> seq<Op>) returns (made: seq<Timer>)
      requires Valid() && ArmedIfInvalid() && IsBatch(expired, batch)
      modifies this, known
      ensures Valid() && batch == {} && Armed() && fresh(known - old(known))
      ensures Made([], made, AllOps(expired, callback), old(known), known)
      ensures State(|made|) == AfterReset(AfterOps(old(State(0)), AllOps(expired, callback), made), expired, now)
      ensures forall i :: 0 <= i < |expired| ==> WasReset(expired[i], now)
    {
      made := RunCallbacks(expired, now, callback);
      Reset(expired, now, |made|);
    }
  }
}
