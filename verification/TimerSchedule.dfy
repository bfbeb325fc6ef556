/**
 Timers (Timer.h, Timer.cpp), and what one `handleRead` of a timer queue does to them, on values:
 which timers are in the heap with which expiries, and which have been deleted.
 */
module TimerSchedule {

  class Timer {
    var expiration: int
    const interval: nat     // in microseconds, after truncation
    const repeats: bool

    constructor (expiration: int, interval: nat, repeats: bool)
      ensures this.expiration == expiration && this.interval == interval && this.repeats == repeats
    {
      this.expiration := expiration;
      this.interval, this.repeats := interval, repeats;
    }

    /** `Timer::restart` */
    method Restart(now: int)
      modifies this
      ensures expiration == if repeats then now + interval else 0
    {
      if repeats {
        expiration := now;
        expiration := expiration + interval;
      } else {
        expiration := 0;
      }
    }
  }

  /** What a timer callback does to the queue. It can cancel a timer it knows from before, or the `k`-th of the timers
      that callbacks have added since the timerfd was read. */
  datatype Op = Add(when: int, interval: nat, repeats: bool) | CancelTimer(timer: Timer) | CancelAdded(k: nat)

  /** The timers in the heap with their expiries, the deleted ones, and how many have been added since the timerfd was
      read. */
  datatype Schedule = Schedule(due: map<Timer, int>, deleted: set<Timer>, added: nat)

  function Cancelled(s: Schedule, t: Timer): Schedule {
    if t in s.due then s.(due := s.due - {t}, deleted := s.deleted + {t}) else s
  }

  /** One operation; `made` are the timers added, in order. */
  function AfterOp(s: Schedule, op: Op, made: seq<Timer>): Schedule {
    match op
    case Add(when, _, _) =>
      if s.added < |made| then s.(due := s.due[made[s.added] := when], added := s.added + 1) else s
    case CancelTimer(t) => Cancelled(s, t)
    case CancelAdded(k) => if k < s.added && k < |made| then Cancelled(s, made[k]) else s
  }

  function AfterOps(s: Schedule, ops: seq<Op>, made: seq<Timer>): Schedule {
    if ops == [] then s else AfterOp(AfterOps(s, ops[..|ops| - 1], made), ops[|ops| - 1], made)
  }

  /** The additions among the operations. */
  function Adds(ops: seq<Op>): (r: seq<Op>)
    ensures forall i :: 0 <= i < |r| ==> r[i].Add?
  {
    if ops == [] then []
    else Adds(ops[..|ops| - 1]) + if ops[|ops| - 1].Add? then [ops[|ops| - 1]] else []
  }

  /** A repeating timer goes back, one interval from now; any other is deleted. */
  function ResetTo(s: Schedule, t: Timer, now: int): Schedule {
    if t.repeats then s.(due := s.due[t := now + t.interval]) else s.(deleted := s.deleted + {t})
  }

  /** `reset` */
  function AfterReset(s: Schedule, expired: seq<Timer>, now: int): Schedule {
    if expired == [] then s else ResetTo(AfterReset(s, expired[..|expired| - 1], now), expired[|expired| - 1], now)
  }

  /** All the callbacks of a batch do, one after the other. */
  function AllOps(expired: seq<Timer>, callback: Timer -> seq<Op>): seq<Op> {
    if expired == [] then [] else AllOps(expired[..|expired| - 1], callback) + callback(expired[|expired| - 1])
  }

  function Elements<T>(s: seq<T>): set<T> { set x | x in s }

  /** A whole `handleRead`: the expired timers leave the heap, the operations run, and the expired timers are reset. */
  function AfterRead(due: map<Timer, int>, deleted: set<Timer>, expired: seq<Timer>, ops: seq<Op>, made: seq<Timer>,
                     now: int): Schedule {
    AfterReset(AfterOps(Schedule(due - Elements(expired), deleted, 0), ops, made), expired, now)
  }

  lemma {:induction false} AddedCount(s: Schedule, ops: seq<Op>, made: seq<Timer>)
    requires s.added + |Adds(ops)| <= |made|
    ensures AfterOps(s, ops, made).added == s.added + |Adds(ops)|
  {
    if ops != [] { AddedCount(s, ops[..|ops| - 1], made); }
  }

  /** Timers added later do not matter to earlier operations. */
  lemma {:induction false} AfterOpsStable(s: Schedule, ops: seq<Op>, made: seq<Timer>, more: seq<Timer>)
    requires s.added + |Adds(ops)| <= |made| && made <= more
    ensures AfterOps(s, ops, more) == AfterOps(s, ops, made)
  {
    if ops != [] {
      AfterOpsStable(s, ops[..|ops| - 1], made, more);
      AddedCount(s, ops[..|ops| - 1], made);
    }
  }

  lemma {:induction false} AfterOpsConcat(s: Schedule, a: seq<Op>, b: seq<Op>, made: seq<Timer>)
    ensures AfterOps(s, a + b, made) == AfterOps(AfterOps(s, a, made), b, made)
    ensures Adds(a + b) == Adds(a) + Adds(b)
  {
    if b == [] {
      assert a + b == a;
    } else {
      AfterOpsConcat(s, a, b[..|b| - 1], made);
      assert (a + b)[..|a + b| - 1] == a + b[..|b| - 1];
    }
  }

  /** Operations leave a timer alone that they neither add nor cancel. */
  lemma {:induction false} OpsKeep(s: Schedule, ops: seq<Op>, made: seq<Timer>, t: Timer)
    requires CancelTimer(t) !in ops && t !in made
    ensures t in AfterOps(s, ops, made).due <==> t in s.due
    ensures t in s.due ==> AfterOps(s, ops, made).due[t] == s.due[t]
    ensures t in AfterOps(s, ops, made).deleted <==> t in s.deleted
  {
    if ops != [] { OpsKeep(s, ops[..|ops| - 1], made, t); }
  }

  /** A timer that is cancelled while it is in the heap is gone for good. */
  lemma {:induction false} OpsCancel(s: Schedule, ops: seq<Op>, made: seq<Timer>, t: Timer)
    requires t in s.due && t !in made && CancelTimer(t) in ops
    ensures t !in AfterOps(s, ops, made).due && t in AfterOps(s, ops, made).deleted
  {
    var front := ops[..|ops| - 1];
    assert ops == front + [ops[|ops| - 1]];
    if CancelTimer(t) in front {
      OpsCancel(s, front, made, t);
    } else {
      OpsKeep(s, front, made, t);
    }
  }

  /** An added timer is in the heap with its expiry unless it is cancelled again. */
  lemma {:induction false} OpsAdd(s: Schedule, ops: seq<Op>, made: seq<Timer>, j: nat)
    requires s.added <= j < s.added + |Adds(ops)| <= |made| && forall i, k :: 0 <= i < k < |made| ==> made[i] != made[k]
    requires CancelTimer(made[j]) !in ops && CancelAdded(j) !in ops
    ensures made[j] in AfterOps(s, ops, made).due
    ensures AfterOps(s, ops, made).due[made[j]] == Adds(ops)[j - s.added].when
  {
    var front := ops[..|ops| - 1];
    AddedCount(s, front, made);
    if j < s.added + |Adds(front)| {
      OpsAdd(s, front, made, j);
    }
  }

  /** A timer that has been added and is then cancelled by its number is gone for good. */
  lemma OpsCancelNew(s: Schedule, front: seq<Op>, rest: seq<Op>, made: seq<Timer>, j: nat)
    requires s.added <= j < s.added + |Adds(front)| && s.added + |Adds(front + [CancelAdded(j)] + rest)| <= |made|
    requires j < |made| && made[j] !in s.due && made[j] !in s.deleted
    requires forall i, k :: 0 <= i < k < |made| ==> made[i] != made[k]
    ensures var t := AfterOps(s, front + [CancelAdded(j)] + rest, made);
            made[j] !in t.due && made[j] in t.deleted
  {
    var cancel := front + [CancelAdded(j)];
    AfterOpsConcat(s, cancel, rest, made);
    AfterOpsConcat(s, front, [CancelAdded(j)], made);
    AddedCount(s, front, made);
    OpsPresent(s, front, made, j);
    assert cancel[..|cancel| - 1] == front;
    AddedCount(s, cancel, made);
    OpsGone(AfterOps(s, cancel, made), rest, made, j);
  }

  /** An added timer is in the heap or deleted. */
  lemma {:induction false} OpsPresent(s: Schedule, ops: seq<Op>, made: seq<Timer>, j: nat)
    requires s.added <= j < s.added + |Adds(ops)| <= |made| && forall i, k :: 0 <= i < k < |made| ==> made[i] != made[k]
    ensures made[j] in AfterOps(s, ops, made).due || made[j] in AfterOps(s, ops, made).deleted
  {
    var front := ops[..|ops| - 1];
    AddedCount(s, front, made);
    if j < s.added + |Adds(front)| { OpsPresent(s, front, made, j); }
  }

  /** An added timer that has left the heap is not added again. */
  lemma {:induction false} OpsGone(s: Schedule, ops: seq<Op>, made: seq<Timer>, j: nat)
    requires j < s.added && s.added + |Adds(ops)| <= |made| && made[j] !in s.due
    requires forall i, k :: 0 <= i < k < |made| ==> made[i] != made[k]
    ensures made[j] !in AfterOps(s, ops, made).due
    ensures made[j] in s.deleted ==> made[j] in AfterOps(s, ops, made).deleted
  {
    if ops != [] {
      OpsGone(s, ops[..|ops| - 1], made, j);
      AddedCount(s, ops[..|ops| - 1], made);
    }
  }

  /** Operations delete only what they cancel. */
  lemma {:induction false} OpsDelete(s: Schedule, ops: seq<Op>, made: seq<Timer>, t: Timer)
    requires t in AfterOps(s, ops, made).deleted && t !in s.deleted
    ensures CancelTimer(t) in ops || exists k :: 0 <= k < |made| && made[k] == t && CancelAdded(k) in ops
  {
    var front, op := ops[..|ops| - 1], ops[|ops| - 1];
    if t in AfterOps(s, front, made).deleted {
      OpsDelete(s, front, made, t);
    } else {
      assert op == CancelTimer(t) || op.CancelAdded?;
    }
  }

  lemma {:induction false} ResetIs(s: Schedule, expired: seq<Timer>, now: int, t: Timer)
    requires t !in s.due
    ensures t in AfterReset(s, expired, now).due <==> t in expired && t.repeats
    ensures t in expired && t.repeats ==> AfterReset(s, expired, now).due[t] == now + t.interval
    ensures t in AfterReset(s, expired, now).deleted <==> t in s.deleted || (t in expired && !t.repeats)
  {
    if expired != [] { ResetIs(s, expired[..|expired| - 1], now, t); }
  }

  lemma {:induction false} ResetKeeps(s: Schedule, expired: seq<Timer>, now: int, t: Timer)
    requires t !in expired
    ensures t in AfterReset(s, expired, now).due <==> t in s.due
    ensures t in s.due ==> AfterReset(s, expired, now).due[t] == s.due[t]
    ensures t in AfterReset(s, expired, now).deleted <==> t in s.deleted
  {
    if expired != [] { ResetKeeps(s, expired[..|expired| - 1], now, t); }
  }

  /** A timer that is not due when the timerfd is read stays in the heap with its expiry, unless a callback cancels it;
      then, and only then, it is deleted. */
  lemma ReadKeeps(due: map<Timer, int>, deleted: set<Timer>, expired: seq<Timer>, ops: seq<Op>, made: seq<Timer>,
                  now: int, t: Timer)
    requires t in due && t !in expired && t !in made && t !in deleted
    ensures var s := AfterRead(due, deleted, expired, ops, made, now);
            if CancelTimer(t) in ops then t !in s.due && t in s.deleted
            else t in s.due && s.due[t] == due[t] && t !in s.deleted
  {
    var s := Schedule(due - Elements(expired), deleted, 0);
    if CancelTimer(t) in ops { OpsCancel(s, ops, made, t); } else { OpsKeep(s, ops, made, t); }
    ResetKeeps(AfterOps(s, ops, made), expired, now, t);
  }

  /** A timer that a callback adds is in the heap afterwards with the expiry it was given, unless it is cancelled
      again. */
  lemma ReadAdds(due: map<Timer, int>, deleted: set<Timer>, expired: seq<Timer>, ops: seq<Op>, made: seq<Timer>,
                 now: int, j: nat)
    requires j < |Adds(ops)| == |made| && made[j] !in expired
    requires forall i, k :: 0 <= i < k < |made| ==> made[i] != made[k]
    requires CancelTimer(made[j]) !in ops && CancelAdded(j) !in ops
    ensures var s := AfterRead(due, deleted, expired, ops, made, now);
            made[j] in s.due && s.due[made[j]] == Adds(ops)[j].when
  {
    var s := Schedule(due - Elements(expired), deleted, 0);
    OpsAdd(s, ops, made, j);
    ResetKeeps(AfterOps(s, ops, made), expired, now, made[j]);
  }

  /** An expired timer is back one interval later or deleted, and no callback can change that. */
  lemma ReadResets(due: map<Timer, int>, deleted: set<Timer>, expired: seq<Timer>, ops: seq<Op>, made: seq<Timer>,
                   now: int, t: Timer)
    requires t in expired && t !in made && t !in deleted
    ensures var s := AfterRead(due, deleted, expired, ops, made, now);
            if t.repeats then t in s.due && s.due[t] == now + t.interval && t !in s.deleted
            else t !in s.due && t in s.deleted
  {
    var s := Schedule(due - Elements(expired), deleted, 0);
    OpsIgnore(s, ops, made, t);
    ResetIs(AfterOps(s, ops, made), expired, now, t);
  }

  /** Cancelling a timer that is not in the heap, such as one of the running batch, does nothing. */
  lemma {:induction false} OpsIgnore(s: Schedule, ops: seq<Op>, made: seq<Timer>, t: Timer)
    requires t !in s.due && t !in made
    ensures t !in AfterOps(s, ops, made).due
    ensures t in AfterOps(s, ops, made).deleted <==> t in s.deleted
  {
    if ops != [] { OpsIgnore(s, ops[..|ops| - 1], made, t); }
  }

  /** Only cancelled timers and the expired ones that do not repeat are deleted. */
  lemma ReadDeletes(due: map<Timer, int>, deleted: set<Timer>, expired: seq<Timer>, ops: seq<Op>, made: seq<Timer>,
                    now: int, t: Timer)
    requires t in AfterRead(due, deleted, expired, ops, made, now).deleted && t !in deleted
    ensures (t in expired && !t.repeats) || CancelTimer(t) in ops
            || exists k :: 0 <= k < |made| && made[k] == t && CancelAdded(k) in ops
  {
    var s := AfterOps(Schedule(due - Elements(expired), deleted, 0), ops, made);
    if t in s.deleted {
      OpsDelete(Schedule(due - Elements(expired), deleted, 0), ops, made, t);
    } else {
      ResetDeletes(s, expired, now, t);
    }
  }

  lemma {:induction false} ResetDeletes(s: Schedule, expired: seq<Timer>, now: int, t: Timer)
    requires t in AfterReset(s, expired, now).deleted && t !in s.deleted
    ensures t in expired && !t.repeats
  {
    if t in AfterReset(s, expired[..|expired| - 1], now).deleted { ResetDeletes(s, expired[..|expired| - 1], now, t); }
  }

  /** The timers `made` go on from `was` by the additions of `ops`: they are new, different, and as they were asked
      for. */
  ghost predicate Made(was: seq<Timer>, made: seq<Timer>, ops: seq<Op>, before: set<Timer>, after: set<Timer>) {
    && was <= made && |made| == |was| + |Adds(ops)|
    && after == before + Elements(made)
    && (forall j :: |was| <= j < |made| ==> made[j] !in before)
    && (forall i, j :: 0 <= i < j && |was| <= j < |made| ==> made[i] != made[j])
    && (forall j :: |was| <= j < |made| ==>
          made[j].interval == Adds(ops)[j - |was|].interval && made[j].repeats == Adds(ops)[j - |was|].repeats)
  }

  lemma MadeNothing(made: seq<Timer>, known: set<Timer>)
    requires Elements(made) <= known
    ensures Made(made, made, [], known, known)
  {
  }

  lemma MadeNone(made: seq<Timer>, op: Op, known: set<Timer>)
    requires Elements(made) <= known && !op.Add?
    ensures Made(made, made, [op], known, known)
  {
    assert [op][..0] == [];
  }

  lemma MadeOne(made: seq<Timer>, t: Timer, op: Op, known: set<Timer>)
    requires Elements(made) <= known && t !in known && op.Add? && t.interval == op.interval && t.repeats == op.repeats
    ensures Made(made, made + [t], [op], known, known + {t})
  {
    assert [op][..0] == [];
    assert forall i :: 0 <= i < |made| ==> made[i] in Elements(made);
  }

  lemma MadeKnown(was: seq<Timer>, made: seq<Timer>, ops: seq<Op>, before: set<Timer>, after: set<Timer>)
    requires Made(was, made, ops, before, after)
    ensures Elements(made) <= after
  {
  }

  lemma MadeConcat(m0: seq<Timer>, m1: seq<Timer>, m2: seq<Timer>, a: seq<Op>, b: seq<Op>,
                   k0: set<Timer>, k1: set<Timer>, k2: set<Timer>)
    requires Made(m0, m1, a, k0, k1) && Made(m1, m2, b, k1, k2)
    ensures Made(m0, m2, a + b, k0, k2)
  {
    AfterOpsConcat(Schedule(map[], {}, 0), a, b, m2);
  }

  /** What happens in two stretches happens in one. */
  lemma OpsConcat(s: Schedule, t: Schedule, u: Schedule, m1: seq<Timer>, m2: seq<Timer>, a: seq<Op>, b: seq<Op>)
    requires s.added + |Adds(a)| <= |m1| && m1 <= m2 && t == AfterOps(s, a, m1) && u == AfterOps(t, b, m2)
    ensures u == AfterOps(s, a + b, m2)
  {
    AfterOpsStable(s, a, m1, m2);
    AfterOpsConcat(s, a, b, m2);
  }

  /** One more operation. */
  lemma Next(m0: seq<Timer>, m1: seq<Timer>, m2: seq<Timer>, a: seq<Op>, op: Op, k0: set<Timer>, k1: set<Timer>,
             k2: set<Timer>,
             s: Schedule, t: Schedule, u: Schedule)
    requires Made(m0, m1, a, k0, k1) && Made(m1, m2, [op], k1, k2) && s.added == |m0|
    requires t == AfterOps(s, a, m1) && u == AfterOp(t, op, m2)
    ensures Made(m0, m2, a + [op], k0, k2) && u == AfterOps(s, a + [op], m2)
  {
    MadeConcat(m0, m1, m2, a, [op], k0, k1, k2);
    assert [op][..0] == [];
    OpsConcat(s, t, u, m1, m2, a, [op]);
  }

  lemma CancelledIs(due: map<Timer, int>, t: Timer)
    requires t !in due
    ensures due - {t} == due
  {
  }
}
