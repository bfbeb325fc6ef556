/**
 The elastic priority thread pool of ThreadPool.h as a state machine. One step is one section
 executed under the mutex, one notification, one wake-up, one task completion or one join;
 construction is atomic. A condition variable may wake a waiter spuriously.
 */
module ThreadPoolProtocol {

  datatype Task = Task(id: nat, priority: int)

  /** Where a worker thread is in `worker_loop`. */
  datatype Worker =
    | Ready                 // about to take the mutex at the top of the loop
    | Waiting               // asleep in the condition variable
    | Notified              // woken, about to retake the mutex
    | TimedOut              // the one-second wait is over, about to retake the mutex
    | Running(task: Task)
    | Exited                // returned after a stop
    | Detached              // returned after removing itself from the pool

  /** How far the one stop call that took effect has got. */
  datatype StopPhase = NotStopped | MustNotify | MustSwap | Joining | Returned

  datatype State = State(
    core: nat, max: nat,
    workers: seq<Worker>,      // every thread ever created
    pool: seq<nat>,            // `workers_`
    joining: seq<nat>,         // the part of `to_join` not joined yet
    queue: multiset<Task>,     // `tasks_`
    stop: bool, accepting: bool, phase: StopPhase,
    graceful: bool,            // the stop that took effect was `wait_and_stop`
    notifies: nat,             // submitters between their push and their `notify_one`
    accepted: multiset<Task>, done: multiset<Task>, dropped: multiset<Task>, nextId: nat)

  // ---------------------------------------------------------------- steps

  predicate Up(w: Worker) { w.Ready? || w.Notified? || w.TimedOut? }

  predicate IsTop(queue: multiset<Task>, t: Task) {
    t in queue && forall u :: u in queue ==> t.priority <= u.priority
  }

  function Set(s: State, w: nat, v: Worker): State
    requires w < |s.workers|
  {
    s.(workers := s.workers[w := v])
  }

  /** `erase` of the first handle equal to `w`. */
  function Erase(pool: seq<nat>, w: nat): seq<nat> {
    if pool == [] then [] else if pool[0] == w then pool[1..] else [pool[0]] + Erase(pool[1..], w)
  }

  function Wake(w: Worker): Worker { if w.Waiting? then Notified else w }

  function WakeAll(ws: seq<Worker>): (r: seq<Worker>)
    ensures |r| == |ws| && forall i :: 0 <= i < |ws| ==> r[i] == Wake(ws[i])
  {
    if ws == [] then [] else WakeAll(ws[..|ws|-1]) + [Wake(ws[|ws|-1])]
  }

  function Submit(s: State, priority: int): State
    requires s.accepting
  {
    var t := Task(s.nextId, priority);
    var pushed := s.(queue := s.queue + multiset{t}, accepted := s.accepted + multiset{t},
                     nextId := s.nextId + 1, notifies := s.notifies + 1);
    if |pushed.queue| > |s.pool| && |s.pool| < s.max
    then pushed.(workers := s.workers + [Ready], pool := s.pool + [|s.workers|])
    else pushed
  }

  datatype Step =
    | StepSubmit(priority: int)
    | StepNotifyOne(w: nat)
    | StepNotifyNobody
    | StepSpuriousWake(w: nat)
    | StepTimeout(w: nat)
    | StepSleep(w: nat)           // the predicate is false: wait, or wait again
    | StepGoRound(w: nat)         // timed out with nothing to do at core size
    | StepScaleDown(w: nat)       // timed out with nothing to do above core size
    | StepTake(w: nat, task: Task)
    | StepExit(w: nat)
    | StepFinish(w: nat)
    | StepStop(gracefully: bool)
    | StepNotifyAll
    | StepSwap
    | StepJoin
    | StepReturn

  predicate CanNotifyOne(s: State, w: nat) { s.notifies > 0 && w < |s.workers| && s.workers[w].Waiting? }

  predicate CanNotifyNobody(s: State) { s.notifies > 0 && Waiting !in s.workers }

  predicate CanScaleDown(s: State, w: nat) {
    w < |s.workers| && s.workers[w].TimedOut? && s.queue == multiset{} && !s.stop && |s.pool| > s.core
  }

  predicate CanTake(s: State, w: nat, t: Task) { w < |s.workers| && Up(s.workers[w]) && IsTop(s.queue, t) }

  predicate CanExit(s: State, w: nat) {
    w < |s.workers| && Up(s.workers[w]) && s.stop && s.queue == multiset{}
  }

  predicate CanFinish(s: State, w: nat) { w < |s.workers| && s.workers[w].Running? }

  predicate CanJoin(s: State) {
    s.phase.Joining? && s.joining != [] && s.joining[0] < |s.workers| && s.workers[s.joining[0]].Exited?
  }

  predicate CanReturn(s: State) { s.phase.Joining? && s.joining == [] }

  predicate Enabled(s: State, a: Step) {
    match a
    case StepSubmit(_) => s.accepting
    case StepNotifyOne(w) => CanNotifyOne(s, w)
    case StepNotifyNobody => CanNotifyNobody(s)
    case StepSpuriousWake(w) => w < |s.workers| && s.workers[w].Waiting?
    case StepTimeout(w) => s.max > s.core && w < |s.workers| && s.workers[w].Waiting?
    case StepSleep(w) =>
      w < |s.workers| && (s.workers[w].Ready? || s.workers[w].Notified?) && s.queue == multiset{} && !s.stop
    case StepGoRound(w) =>
      w < |s.workers| && s.workers[w].TimedOut? && s.queue == multiset{} && !s.stop && |s.pool| <= s.core
    case StepScaleDown(w) => CanScaleDown(s, w)
    case StepTake(w, t) => CanTake(s, w, t)
    case StepExit(w) => CanExit(s, w)
    case StepFinish(w) => CanFinish(s, w)
    case StepStop(_) => s.accepting
    case StepNotifyAll => s.phase.MustNotify?
    case StepSwap => s.phase.MustSwap?
    case StepJoin => CanJoin(s)
    case StepReturn => CanReturn(s)
  }

  function NotifyOne(s: State, w: nat): State
    requires CanNotifyOne(s, w)
  {
    Set(s, w, Notified).(notifies := s.notifies - 1)
  }

  function ScaleDown(s: State, w: nat): State
    requires w < |s.workers|
  {
    Set(s, w, Detached).(pool := Erase(s.pool, w))
  }

  function Take(s: State, w: nat, t: Task): State
    requires w < |s.workers|
  {
    Set(s, w, Running(t)).(queue := s.queue - multiset{t})
  }

  function Finish(s: State, w: nat): State
    requires w < |s.workers| && s.workers[w].Running?
  {
    Set(s, w, Ready).(done := s.done + multiset{s.workers[w].task})
  }

  function Stop(s: State, gracefully: bool): State {
    if gracefully then s.(stop := true, accepting := false, phase := MustNotify, graceful := true)
    else s.(stop := true, accepting := false, phase := MustNotify, graceful := false,
            queue := multiset{}, dropped := s.dropped + s.queue)
  }

  function NotifyAll(s: State): State { s.(workers := WakeAll(s.workers), phase := MustSwap) }

  function Swap(s: State): State { s.(joining := s.pool, pool := [], phase := Joining) }

  function Join(s: State): State
    requires s.joining != []
  {
    s.(joining := s.joining[1..])
  }

  function Apply(s: State, a: Step): State
    requires Enabled(s, a)
  {
    match a
    case StepSubmit(priority) => Submit(s, priority)
    case StepNotifyOne(w) => NotifyOne(s, w)
    case StepNotifyNobody => s.(notifies := s.notifies - 1)
    case StepSpuriousWake(w) => Set(s, w, Notified)
    case StepTimeout(w) => Set(s, w, TimedOut)
    case StepSleep(w) => Set(s, w, Waiting)
    case StepGoRound(w) => Set(s, w, Ready)
    case StepScaleDown(w) => ScaleDown(s, w)
    case StepTake(w, t) => Take(s, w, t)
    case StepExit(w) => Set(s, w, Exited)
    case StepFinish(w) => Finish(s, w)
    case StepStop(gracefully) => Stop(s, gracefully)
    case StepNotifyAll => NotifyAll(s)
    case StepSwap => Swap(s)
    case StepJoin => Join(s)
    case StepReturn => s.(phase := Returned)
  }

  /** A pool whose constructor has returned. */
  ghost predicate Init(s: State) {
    && s.core > 0 && |s.workers| == |s.pool| == s.core
    && (forall w :: 0 <= w < s.core ==> s.workers[w].Ready? && s.pool[w] == w)
    && s.joining == [] && s.queue == multiset{} && !s.stop && s.accepting && s.phase.NotStopped?
    && s.notifies == 0 && s.accepted == multiset{} && s.done == multiset{} && s.dropped == multiset{} && s.nextId == 0
  }

  ghost predicate Reaches(s: State, steps: seq<Step>, t: State)
    decreases |steps|
  {
    if steps == [] then s == t
    else Enabled(s, steps[0]) && Reaches(Apply(s, steps[0]), steps[1..], t)
  }

  // ------------------------------------------------- sums over the workers

  function Total(ws: seq<Worker>, f: Worker -> nat): nat {
    if ws == [] then 0 else Total(ws[..|ws|-1], f) + f(ws[|ws|-1])
  }

  function UpOne(w: Worker): nat { if Up(w) then 1 else 0 }

  /** Steps a worker can still take after a stop without taking a task. */
  function Weight(w: Worker): nat {
    match w
    case Running(_) => 2
    case Waiting => 2
    case Exited => 0
    case Detached => 0
    case _ => 1
  }

  function TasksOf(w: Worker): multiset<Task> { if w.Running? then multiset{w.task} else multiset{} }

  /** The tasks being executed. */
  function InProgress(ws: seq<Worker>): multiset<Task> {
    if ws == [] then multiset{} else InProgress(ws[..|ws|-1]) + TasksOf(ws[|ws|-1])
  }

  lemma {:induction false} TotalUpdate(ws: seq<Worker>, w: nat, v: Worker, f: Worker -> nat)
    requires w < |ws|
    ensures Total(ws[w := v], f) + f(ws[w]) == Total(ws, f) + f(v)
  {
    var n := |ws| - 1;
    if w < n {
      assert ws[w := v][..n] == ws[..n][w := v];
      TotalUpdate(ws[..n], w, v, f);
    } else {
      assert ws[w := v][..n] == ws[..n];
    }
  }

  lemma InProgressLast(ws: seq<Worker>, front: seq<Worker>)
    requires ws != [] && front == ws[..|ws| - 1]
    ensures InProgress(ws) == InProgress(front) + TasksOf(ws[|ws| - 1])
  {
  }

  lemma {:induction false} InProgressUpdate(ws: seq<Worker>, w: nat, v: Worker)
    requires w < |ws|
    ensures InProgress(ws[w := v]) + TasksOf(ws[w]) == InProgress(ws) + TasksOf(v)
  {
    var n := |ws| - 1;
    var front, last := ws[..n], TasksOf(ws[n]);
    InProgressLast(ws, front);
    if w < n {
      InProgressUpdate(front, w, v);
      InProgressLast(ws[w := v], front[w := v]);
      Exchange(InProgress(front[w := v]), InProgress(front), TasksOf(ws[w]), TasksOf(v), last);
    } else {
      InProgressLast(ws[w := v], front);
      Commute(InProgress(front), TasksOf(v), last);
    }
  }

  lemma Exchange<T>(p: multiset<T>, q: multiset<T>, x: multiset<T>, y: multiset<T>, z: multiset<T>)
    requires p + x == q + y
    ensures (p + z) + x == (q + z) + y
  {
    forall m ensures ((p + z) + x)[m] == ((q + z) + y)[m] {
      assert (p + x)[m] == (q + y)[m];
    }
  }

  lemma Commute<T>(p: multiset<T>, x: multiset<T>, y: multiset<T>)
    ensures (p + x) + y == (p + y) + x
  {
  }

  lemma AppendWorker(ws: seq<Worker>, v: Worker, f: Worker -> nat)
    ensures Total(ws + [v], f) == Total(ws, f) + f(v)
    ensures InProgress(ws + [v]) == InProgress(ws) + TasksOf(v)
  {
    assert (ws + [v])[..|ws|] == ws;
  }

  lemma {:induction false} WakeAllSums(ws: seq<Worker>)
    ensures Total(WakeAll(ws), UpOne) >= Total(ws, UpOne)
    ensures Total(WakeAll(ws), Weight) <= Total(ws, Weight)
    ensures InProgress(WakeAll(ws)) == InProgress(ws)
    ensures Waiting !in WakeAll(ws)
  {
    if ws != [] {
      var n := |ws| - 1;
      assert WakeAll(ws)[..n] == WakeAll(ws[..n]);
      WakeAllSums(ws[..n]);
    }
  }

  lemma {:induction false} SomeWorkerUp(ws: seq<Worker>)
    requires Total(ws, UpOne) > 0
    ensures exists w :: 0 <= w < |ws| && Up(ws[w])
  {
    var n := |ws| - 1;
    if !Up(ws[n]) {
      SomeWorkerUp(ws[..n]);
      var w :| 0 <= w < n && Up(ws[..n][w]);
      assert Up(ws[w]);
    }
  }

  lemma {:induction false} NothingInProgress(ws: seq<Worker>)
    requires forall w :: 0 <= w < |ws| ==> !ws[w].Running?
    ensures InProgress(ws) == multiset{}
  {
    if ws != [] { NothingInProgress(ws[..|ws|-1]); }
  }

  lemma {:induction false} EraseOne(pool: seq<nat>, w: nat)
    requires NoDuplicates(pool) && w in pool
    ensures |Erase(pool, w)| == |pool| - 1 && NoDuplicates(Erase(pool, w))
    ensures forall x :: x in Erase(pool, w) <==> x in pool && x != w
  {
    if pool[0] == w {
      assert forall x :: x in pool ==> x == w || x in pool[1..];
    } else {
      assert NoDuplicates(pool[1..]) && w in pool[1..];
      EraseOne(pool[1..], w);
      assert pool[0] !in pool[1..];
    }
  }

  // ------------------------------------------------------------ invariant

  ghost predicate NoDuplicates(p: seq<nat>) { forall i, j :: 0 <= i < j < |p| ==> p[i] != p[j] }

  function UpperBound(s: State): nat { if s.core <= s.max then s.max else s.core }

  predicate Swapped(s: State) { s.phase.Joining? || s.phase.Returned? }

  /** The flags, the size of the pool, and who is where. */
  ghost predicate Structure(s: State) {
    && s.core > 0 && s.accepting == !s.stop && (s.stop <==> !s.phase.NotStopped?)
    && (!Swapped(s) ==> s.core <= |s.pool| <= UpperBound(s) && s.joining == [])
    && (Swapped(s) ==> s.pool == [])
    && (s.phase.Returned? ==> s.joining == [])
    && NoDuplicates(s.pool)
    && (forall w :: w in s.pool || w in s.joining ==> w < |s.workers| && !s.workers[w].Detached?)
    && (forall w :: 0 <= w < |s.workers| ==>
          w in s.pool || w in s.joining || s.workers[w].Detached? || s.workers[w].Exited?)
    && (exists w :: 0 <= w < |s.workers| && !s.workers[w].Detached?)
  }

  /** Threads leave after a stop only when the queue is empty, and none goes to sleep any more. */
  ghost predicate Leaving(s: State) {
    && (forall w :: 0 <= w < |s.workers| && s.workers[w].Exited? ==> s.stop && s.queue == multiset{})
    && (s.stop && !s.phase.MustNotify? ==> Waiting !in s.workers)
  }

  /** No lost wakeup: while any worker sleeps, every queued task is matched by a notification
      still to come or by a worker that is up and about to look at the queue. */
  ghost predicate Covered(s: State) {
    Waiting in s.workers ==> |s.queue| <= s.notifies + Total(s.workers, UpOne)
  }

  /** Every accepted task is queued, in progress, done or dropped, and in one of these only. */
  ghost predicate Accounted(s: State) {
    && s.accepted == s.queue + InProgress(s.workers) + s.done + s.dropped
    && (forall t :: t in s.accepted ==> s.accepted[t] == 1 && t.id < s.nextId)
    && (!s.stop || s.graceful ==> s.dropped == multiset{})
  }

  ghost predicate Inv(s: State) {
    Structure(s) && Leaving(s) && Covered(s) && Accounted(s)
  }

  lemma InitInv(s: State)
    requires Init(s)
    ensures Inv(s)
  {
    NothingInProgress(s.workers);
    assert forall w :: 0 <= w < s.core ==> s.pool[w] in s.pool;
    assert !s.workers[0].Detached?;
  }

  // Each part of the invariant, for the kinds of change that touch it.

  /** Nobody but `w` moves, and `w` stays in the pool. */
  lemma StructureMove(s: State, t: State, w: nat)
    requires Structure(s) && w < |s.workers| == |t.workers| && t.workers == s.workers[w := t.workers[w]]
    requires !s.workers[w].Detached? && !s.workers[w].Exited? && !t.workers[w].Detached?
    requires t.core == s.core && t.max == s.max && t.pool == s.pool && t.joining == s.joining
    requires t.stop == s.stop && t.accepting == s.accepting && t.phase == s.phase
    ensures Structure(t)
  {
    assert !t.workers[w].Detached?;
  }

  lemma StructureScaleDown(s: State, w: nat)
    requires Structure(s) && Leaving(s) && CanScaleDown(s, w)
    ensures Structure(ScaleDown(s, w))
  {
    var t := ScaleDown(s, w);
    assert w in s.pool;
    EraseOne(s.pool, w);
    assert t.pool[0] in t.pool;
    assert !t.workers[t.pool[0]].Detached?;
  }

  lemma StructureSubmit(s: State, priority: int)
    requires Structure(s) && s.accepting
    ensures Structure(Submit(s, priority))
  {
    var t := Submit(s, priority);
    var k :| 0 <= k < |s.workers| && !s.workers[k].Detached?;
    assert !t.workers[k].Detached?;
    if |t.workers| > |s.workers| {
      assert forall x :: x in t.pool <==> x in s.pool || x == |s.workers| by {
        assert t.pool[|s.pool|] == |s.workers|;
        assert forall x :: x in s.pool ==> x in t.pool;
      }
      forall j | 0 <= j < |s.pool| ensures s.pool[j] != |s.workers| { assert s.pool[j] in s.pool; }
    }
  }

  lemma StructureStop(s: State, t: State)
    requires Structure(s) && |t.workers| == |s.workers|
    requires forall w :: 0 <= w < |s.workers| ==>
               s.workers[w].Detached? == t.workers[w].Detached? && s.workers[w].Exited? == t.workers[w].Exited?
    requires t.core == s.core && t.max == s.max && t.stop && !t.accepting && !t.phase.NotStopped?
    requires if Swapped(t) && !Swapped(s) then t.joining == s.pool && t.pool == [] && t.phase.Joining?
             else if Swapped(t) then
               t.pool == s.pool && (t.joining == s.joining || (s.joining != [] && t.joining == s.joining[1..]
                 && s.joining[0] < |s.workers| && s.workers[s.joining[0]].Exited?))
               && (t.phase.Returned? ==> t.joining == [])
             else t.pool == s.pool && t.joining == s.joining && !Swapped(s)
    ensures Structure(t)
  {
    var k :| 0 <= k < |s.workers| && !s.workers[k].Detached?;
    assert !t.workers[k].Detached?;
    assert forall w :: w in t.joining ==> w in s.joining || w in s.pool;
    forall w | w in s.joining ensures w in t.joining || w == s.joining[0] || !Swapped(t) {
      if Swapped(t) && Swapped(s) && t.joining != s.joining {
        var i :| 0 <= i < |s.joining| && s.joining[i] == w;
        if i > 0 { assert t.joining[i - 1] == w; }
      }
    }
  }

  lemma LeavingMove(s: State, t: State, w: nat)
    requires Leaving(s) && w < |s.workers| == |t.workers| && t.workers == s.workers[w := t.workers[w]]
    requires t.stop == s.stop && t.phase == s.phase && (s.queue == multiset{} ==> t.queue == multiset{})
    requires t.workers[w].Exited? ==> t.stop && t.queue == multiset{}
    requires t.workers[w].Waiting? ==> !t.stop || s.workers[w].Waiting?
    ensures Leaving(t)
  {
    assert s.stop && !s.phase.MustNotify? ==> forall x :: 0 <= x < |s.workers| ==> s.workers[x] in s.workers;
  }

  /** Nobody falls asleep, and what covered the queue still does. */
  lemma CoveredMove(s: State, t: State, w: nat)
    requires Covered(s) && w < |s.workers| == |t.workers| && t.workers == s.workers[w := t.workers[w]]
    requires t.workers[w].Waiting? ==> t.queue == multiset{}
    requires !t.workers[w].Waiting? ==>
               |t.queue| + s.notifies + UpOne(s.workers[w]) <= |s.queue| + t.notifies + UpOne(t.workers[w])
               || |t.queue| == 0
    ensures Covered(t)
  {
    TotalUpdate(s.workers, w, t.workers[w], UpOne);
    if Waiting in t.workers && !t.workers[w].Waiting? {
      var x :| 0 <= x < |t.workers| && t.workers[x] == Waiting;
      assert s.workers[x] == Waiting;
    }
  }

  lemma AccountedMove(s: State, t: State, w: nat)
    requires Accounted(s) && w < |s.workers| == |t.workers| && t.workers == s.workers[w := t.workers[w]]
    requires t.accepted == s.accepted && t.nextId == s.nextId && t.dropped == s.dropped
    requires t.stop == s.stop && t.graceful == s.graceful
    requires t.queue + TasksOf(t.workers[w]) + t.done == s.queue + TasksOf(s.workers[w]) + s.done
    ensures Accounted(t)
  {
    InProgressUpdate(s.workers, w, t.workers[w]);
    Regroup(t.queue, InProgress(t.workers), t.done, TasksOf(t.workers[w]),
            s.queue, InProgress(s.workers), s.done, TasksOf(s.workers[w]));
  }

  lemma Regroup<T>(q': multiset<T>, p': multiset<T>, d': multiset<T>, x': multiset<T>,
                   q: multiset<T>, p: multiset<T>, d: multiset<T>, x: multiset<T>)
    requires p' + x == p + x' && q' + x' + d' == q + x + d
    ensures q' + p' + d' == q + p + d
  {
    forall t ensures (q' + p' + d')[t] == (q + p + d)[t] {
      assert (p' + x)[t] == (p + x')[t];
      assert (q' + x' + d')[t] == (q + x + d)[t];
    }
  }

  lemma MoveInv(s: State, t: State, w: nat)
    requires Inv(s) && w < |s.workers| == |t.workers| && t == Set(s, w, t.workers[w]).(notifies := t.notifies)
    requires (Up(s.workers[w]) || s.workers[w].Waiting?) && (Up(t.workers[w]) || t.workers[w].Waiting?)
    requires t.workers[w].Waiting? ==> s.queue == multiset{} && !s.stop
    requires !t.workers[w].Waiting? ==>
               s.notifies + UpOne(s.workers[w]) <= t.notifies + UpOne(t.workers[w])
    ensures Inv(t)
  {
    StructureMove(s, t, w);
    LeavingMove(s, t, w);
    CoveredMove(s, t, w);
    NoTaskMove(s, t, w);
  }

  lemma NoTaskMove(s: State, t: State, w: nat)
    requires Accounted(s) && w < |s.workers| == |t.workers| && t == Set(s, w, t.workers[w]).(notifies := t.notifies)
    requires (Up(s.workers[w]) || s.workers[w].Waiting?) && (Up(t.workers[w]) || t.workers[w].Waiting?)
    ensures Accounted(t)
  {
    assert TasksOf(s.workers[w]) == TasksOf(t.workers[w]);
    AccountedMove(s, t, w);
  }

  lemma NotifyNobodyInv(s: State)
    requires Inv(s) && CanNotifyNobody(s)
    ensures Inv(s.(notifies := s.notifies - 1))
  {
  }

  lemma SubmitInv(s: State, priority: int)
    requires Inv(s) && s.accepting
    ensures Inv(Submit(s, priority))
  {
    StructureSubmit(s, priority);
    SubmitCovered(s, priority);
    SubmitAccounted(s, priority);
  }

  lemma SubmitCovered(s: State, priority: int)
    requires Leaving(s) && Covered(s) && !s.stop && s.accepting
    ensures Leaving(Submit(s, priority)) && Covered(Submit(s, priority))
  {
    AppendWorker(s.workers, Ready, UpOne);
    assert |s.queue + multiset{Task(s.nextId, priority)}| == |s.queue| + 1;
  }

  lemma SubmitAccounted(s: State, priority: int)
    requires Accounted(s) && !s.stop && s.accepting
    ensures Accounted(Submit(s, priority))
  {
    var t := Submit(s, priority);
    ReadyIsIdle(s.workers);
    assert InProgress(t.workers) == InProgress(s.workers);
    OneMore(s.accepted, s.queue, InProgress(s.workers), s.done, s.dropped, Task(s.nextId, priority));
    NewTask(s.accepted, s.nextId, priority);
  }

  lemma ReadyIsIdle(ws: seq<Worker>)
    ensures InProgress(ws + [Ready]) == InProgress(ws)
  {
    InProgressLast(ws + [Ready], ws);
  }

  /** The next number is not in use yet. */
  lemma NewTask(accepted: multiset<Task>, id: nat, priority: int)
    requires forall x :: x in accepted ==> x.id < id && accepted[x] == 1
    ensures forall x :: x in accepted + multiset{Task(id, priority)} ==>
              x.id < id + 1 && (accepted + multiset{Task(id, priority)})[x] == 1
  {
    assert Task(id, priority) !in accepted;
  }

  lemma OneMore<T>(all: multiset<T>, q: multiset<T>, p: multiset<T>, d: multiset<T>, r: multiset<T>, x: T)
    requires all == q + p + d + r
    ensures all + multiset{x} == (q + multiset{x}) + p + d + r
  {
  }

  lemma ScaleDownInv(s: State, w: nat)
    requires Inv(s) && CanScaleDown(s, w)
    ensures Inv(ScaleDown(s, w))
  {
    StructureScaleDown(s, w);
    LeavingMove(s, ScaleDown(s, w), w);
    CoveredMove(s, ScaleDown(s, w), w);
    AccountedMove(s, ScaleDown(s, w), w);
  }

  lemma TakeInv(s: State, w: nat, task: Task)
    requires Inv(s) && CanTake(s, w, task)
    ensures Inv(Take(s, w, task))
  {
    var t := Take(s, w, task);
    StructureMove(s, t, w);
    TakeTasks(s, w, task);
  }

  lemma TakeTasks(s: State, w: nat, task: Task)
    requires Leaving(s) && Covered(s) && Accounted(s) && w < |s.workers| && Up(s.workers[w]) && task in s.queue
    ensures Leaving(Take(s, w, task)) && Covered(Take(s, w, task)) && Accounted(Take(s, w, task))
  {
    var t := Take(s, w, task);
    TakenOut(s.queue, task);
    LeavingMove(s, t, w);
    CoveredMove(s, t, w);
    AccountedMove(s, t, w);
  }

  lemma TakenOut<T>(q: multiset<T>, x: T)
    requires x in q
    ensures |q - multiset{x}| == |q| - 1 && (q - multiset{x}) + multiset{x} == q
  {
  }

  lemma ExitInv(s: State, w: nat)
    requires Inv(s) && CanExit(s, w)
    ensures Inv(Set(s, w, Exited))
  {
    var t := Set(s, w, Exited);
    StructureMove(s, t, w);
    LeavingMove(s, t, w);
    CoveredMove(s, t, w);
    AccountedMove(s, t, w);
  }

  lemma FinishInv(s: State, w: nat)
    requires Inv(s) && CanFinish(s, w)
    ensures Inv(Finish(s, w))
  {
    var t := Finish(s, w);
    StructureMove(s, t, w);
    LeavingMove(s, t, w);
    CoveredMove(s, t, w);
    AccountedMove(s, t, w);
  }

  lemma StopInv(s: State, gracefully: bool)
    requires Inv(s) && s.accepting
    ensures Inv(Stop(s, gracefully))
  {
    StructureStop(s, Stop(s, gracefully));
  }

  lemma NotifyAllInv(s: State)
    requires Inv(s) && s.phase.MustNotify?
    ensures Inv(NotifyAll(s))
  {
    StructureStop(s, NotifyAll(s));
    NotifyAllTasks(s);
  }

  lemma NotifyAllTasks(s: State)
    requires Leaving(s) && Covered(s) && Accounted(s) && s.phase.MustNotify?
    ensures Leaving(NotifyAll(s)) && Covered(NotifyAll(s)) && Accounted(NotifyAll(s))
  {
    WakeAllSums(s.workers);
  }

  lemma SwapInv(s: State)
    requires Inv(s) && s.phase.MustSwap?
    ensures Inv(Swap(s))
  {
    StructureStop(s, Swap(s));
  }

  lemma JoinInv(s: State)
    requires Inv(s) && CanJoin(s)
    ensures Inv(Join(s))
  {
    StructureStop(s, Join(s));
  }

  lemma ReturnInv(s: State)
    requires Inv(s) && CanReturn(s)
    ensures Inv(s.(phase := Returned))
  {
    StructureStop(s, s.(phase := Returned));
  }

  /** A thread is woken, by a notification or otherwise. */
  lemma WakeStepInv(s: State, a: Step)
    requires Inv(s) && Enabled(s, a) && (a.StepNotifyOne? || a.StepSpuriousWake? || a.StepTimeout?)
    ensures Inv(Apply(s, a))
  {
    MoveInv(s, Apply(s, a), a.w);
  }

  /** A thread finds nothing to do. */
  lemma IdleStepInv(s: State, a: Step)
    requires Inv(s) && Enabled(s, a) && (a.StepSleep? || a.StepGoRound?)
    ensures Inv(Apply(s, a))
  {
    MoveInv(s, Apply(s, a), a.w);
  }

  /** A thread leaves, takes a task, or finishes one. */
  lemma WorkStepInv(s: State, a: Step)
    requires Inv(s) && Enabled(s, a) && (a.StepScaleDown? || a.StepTake? || a.StepExit? || a.StepFinish?)
    ensures Inv(Apply(s, a))
  {
    match a
    case StepScaleDown(w) => ScaleDownInv(s, w);
    case StepTake(w, t) => TakeInv(s, w, t);
    case StepExit(w) => ExitInv(s, w);
    case StepFinish(w) => FinishInv(s, w);
  }

  /** A stop call goes on. */
  lemma StopStepInv(s: State, a: Step)
    requires Inv(s) && Enabled(s, a)
    requires a.StepStop? || a.StepNotifyAll? || a.StepSwap? || a.StepJoin? || a.StepReturn?
    ensures Inv(Apply(s, a))
  {
    match a
    case StepStop(gracefully) => StopInv(s, gracefully);
    case StepNotifyAll => NotifyAllInv(s);
    case StepSwap => SwapInv(s);
    case StepJoin => JoinInv(s);
    case StepReturn => ReturnInv(s);
  }

  lemma StepInv(s: State, a: Step)
    requires Inv(s) && Enabled(s, a)
    ensures Inv(Apply(s, a))
  {
    if a.StepSubmit? {
      SubmitInv(s, a.priority);
    } else if a.StepNotifyNobody? {
      NotifyNobodyInv(s);
    } else if a.StepNotifyOne? || a.StepSpuriousWake? || a.StepTimeout? {
      WakeStepInv(s, a);
    } else if a.StepSleep? || a.StepGoRound? {
      IdleStepInv(s, a);
    } else if a.StepScaleDown? || a.StepTake? || a.StepExit? || a.StepFinish? {
      WorkStepInv(s, a);
    } else {
      StopStepInv(s, a);
    }
  }

  lemma {:induction false} RunInv(s: State, steps: seq<Step>, t: State)
    requires Inv(s) && Reaches(s, steps, t)
    ensures Inv(t)
    decreases |steps|
  {
    if steps != [] {
      StepInv(s, steps[0]);
      RunInv(Apply(s, steps[0]), steps[1..], t);
    }
  }

  // ------------------------------------------------------------- theorems

  /** In every run, each accepted task is in exactly one place, and the size of the pool stays
      between `core` and `max(core, max)` until the stopping thread takes the handles. */
  lemma TasksAccounted(s: State, steps: seq<Step>, t: State)
    requires Init(s) && Reaches(s, steps, t)
    ensures t.accepted == t.queue + InProgress(t.workers) + t.done + t.dropped
    ensures forall x :: x in t.accepted ==>
              t.queue[x] + InProgress(t.workers)[x] + t.done[x] + t.dropped[x] == 1
    ensures !Swapped(t) ==> t.core <= |t.pool| <= (if t.core <= t.max then t.max else t.core)
    ensures !t.stop || t.graceful ==> t.dropped == multiset{}
  {
    InitInv(s);
    RunInv(s, steps, t);
    forall x | x in t.accepted
      ensures t.queue[x] + InProgress(t.workers)[x] + t.done[x] + t.dropped[x] == 1
    {
      assert t.accepted[x] == t.queue[x] + InProgress(t.workers)[x] + t.done[x] + t.dropped[x];
    }
  }

  /** In every run, when the stop call that took effect returns, no task is queued or in progress;
      if that call was `wait_and_stop`, every task ever accepted has been executed. */
  lemma StopReturnsWithAllDone(s: State, steps: seq<Step>, t: State)
    requires Init(s) && Reaches(s, steps, t) && t.phase.Returned?
    ensures t.queue == multiset{} && t.accepted == t.done + t.dropped
    ensures t.graceful ==> t.accepted == t.done
    ensures forall w :: 0 <= w < |t.workers| ==> t.workers[w].Exited? || t.workers[w].Detached?
  {
    InitInv(s);
    RunInv(s, steps, t);
    AllDone(t);
  }

  lemma AllDone(t: State)
    requires Inv(t) && t.phase.Returned?
    ensures t.queue == multiset{} && t.accepted == t.done + t.dropped
    ensures t.graceful ==> t.accepted == t.done
    ensures forall w :: 0 <= w < |t.workers| ==> t.workers[w].Exited? || t.workers[w].Detached?
  {
    var k :| 0 <= k < |t.workers| && !t.workers[k].Detached?;
    assert t.workers[k].Exited?;
    NothingInProgress(t.workers);
  }

  /** In every run, a non-empty queue means that a notification is on its way or some worker is not
      asleep; and as long as one worker sleeps there are enough of them for all queued tasks. */
  lemma NoLostWakeup(s: State, steps: seq<Step>, t: State)
    requires Init(s) && Reaches(s, steps, t) && t.queue != multiset{}
    ensures t.notifies > 0 || exists w :: 0 <= w < |t.workers| && (Up(t.workers[w]) || t.workers[w].Running?)
    ensures Waiting in t.workers ==> |t.queue| <= t.notifies + Total(t.workers, UpOne)
  {
    InitInv(s);
    RunInv(s, steps, t);
    if Waiting in t.workers {
      if t.notifies == 0 { SomeWorkerUp(t.workers); }
    } else {
      var k :| 0 <= k < |t.workers| && !t.workers[k].Detached?;
      assert Up(t.workers[k]) || t.workers[k].Running?;
    }
  }

  // ---------------------------------------------- termination of a stop

  function PhaseWeight(p: StopPhase): nat {
    match p
    case NotStopped => 4
    case MustNotify => 3
    case MustSwap => 2
    case Joining => 1
    case Returned => 0
  }

  /** Bounds the number of steps left once a stop has begun. */
  function Measure(s: State): nat {
    3 * |s.queue| + Total(s.workers, Weight) + s.notifies + |s.pool| + |s.joining| + PhaseWeight(s.phase)
  }

  lemma WorkerStepDecreases(s: State, t: State, w: nat)
    requires w < |s.workers| == |t.workers| && t.workers == s.workers[w := t.workers[w]]
    requires t.pool == s.pool && t.joining == s.joining && t.phase == s.phase
    requires 3 * |t.queue| + Weight(t.workers[w]) + t.notifies < 3 * |s.queue| + Weight(s.workers[w]) + s.notifies
    ensures Measure(t) < Measure(s)
  {
    TotalUpdate(s.workers, w, t.workers[w], Weight);
  }

  lemma NotifyAllDecreases(s: State)
    requires s.phase.MustNotify?
    ensures Measure(NotifyAll(s)) < Measure(s)
  {
    WakeAllSums(s.workers);
  }

  lemma SwapDecreases(s: State)
    requires s.phase.MustSwap? && s.joining == []
    ensures Measure(Swap(s)) < Measure(s)
  {
  }

  lemma JoinDecreases(s: State)
    requires s.joining != []
    ensures Measure(Join(s)) < Measure(s)
  {
  }

  lemma TakeDecreases(s: State, w: nat, task: Task)
    requires CanTake(s, w, task)
    ensures Measure(Take(s, w, task)) < Measure(s)
  {
    TakenOut(s.queue, task);
    WorkerStepDecreases(s, Take(s, w, task), w);
  }

  lemma StepDecreases(s: State, a: Step)
    requires s.stop && !s.accepting && (s.phase.MustSwap? ==> s.joining == []) && Enabled(s, a)
    ensures Apply(s, a).stop && Measure(Apply(s, a)) < Measure(s)
  {
    if a.StepNotifyNobody? || a.StepReturn? {
    } else if a.StepNotifyAll? {
      NotifyAllDecreases(s);
    } else if a.StepSwap? {
      SwapDecreases(s);
    } else if a.StepJoin? {
      JoinDecreases(s);
    } else if a.StepTake? {
      TakeDecreases(s, a.w, a.task);
    } else {
      ThreadDecreases(s, a);
    }
  }

  /** The other steps are those of one thread. */
  lemma ThreadDecreases(s: State, a: Step)
    requires s.stop && !s.accepting && Enabled(s, a)
    requires !a.StepNotifyNobody? && !a.StepNotifyAll? && !a.StepSwap? && !a.StepJoin? && !a.StepReturn? && !a.StepTake?
    ensures Apply(s, a).stop && Measure(Apply(s, a)) < Measure(s)
  {
    WorkerStepDecreases(s, Apply(s, a), a.w);
  }

  /** After a stop has begun every run is finite: it has at most `Measure` steps. */
  lemma {:induction false} StopRunsAreFinite(s: State, steps: seq<Step>, t: State)
    requires Inv(s) && s.stop && Reaches(s, steps, t)
    ensures |steps| + Measure(t) <= Measure(s)
    decreases |steps|
  {
    if steps != [] {
      StepInv(s, steps[0]);
      StepDecreases(s, steps[0]);
      StopRunsAreFinite(Apply(s, steps[0]), steps[1..], t);
    }
  }

  lemma {:induction false} TopExists(queue: multiset<Task>)
    requires queue != multiset{}
    ensures exists t :: IsTop(queue, t)
    decreases |queue|
  {
    var t :| t in queue;
    var rest := queue - multiset{t};
    TakenOut(queue, t);
    if rest == multiset{} {
      TopOfOne(queue, t);
    } else {
      TopExists(rest);
      var m :| IsTop(rest, m);
      BetterOf(queue, t, m);
    }
  }

  lemma TopOfOne(queue: multiset<Task>, t: Task)
    requires t in queue && queue - multiset{t} == multiset{}
    ensures IsTop(queue, t)
  {
    forall u | u in queue ensures u == t {
      assert (queue - multiset{t})[u] == 0;
    }
  }

  lemma BetterOf(queue: multiset<Task>, t: Task, m: Task)
    requires t in queue && IsTop(queue - multiset{t}, m)
    ensures IsTop(queue, if m.priority <= t.priority then m else t)
  {
    forall u | u in queue && u != t ensures m.priority <= u.priority {
      assert u in queue - multiset{t};
    }
    assert m in queue;
  }

  /** After a stop has begun some step is always possible until the stop call has returned;
      with `StopRunsAreFinite`, the call returns in every run that is not abandoned. */
  lemma StopNotStuck(s: State)
    requires Inv(s) && s.stop && !s.phase.Returned?
    ensures exists a :: Enabled(s, a)
  {
    match s.phase
    case MustNotify => assert Enabled(s, StepNotifyAll);
    case MustSwap => assert Enabled(s, StepSwap);
    case Joining =>
      if s.joining == [] {
        assert Enabled(s, StepReturn);
      } else {
        var w := s.joining[0];
        assert w in s.joining;
        if s.workers[w].Exited? {
          assert Enabled(s, StepJoin);
        } else if s.workers[w].Running? {
          assert Enabled(s, StepFinish(w));
        } else {
          assert Up(s.workers[w]);
          if s.queue == multiset{} {
            assert Enabled(s, StepExit(w));
          } else {
            TopExists(s.queue);
            var t :| IsTop(s.queue, t);
            assert Enabled(s, StepTake(w, t));
          }
        }
      }
  }

  /** From every reachable state in which a stop has begun, the stop call can run to its return. */
  lemma {:induction false} StopCanReturn(s: State) returns (steps: seq<Step>, t: State)
    requires Inv(s) && s.stop
    ensures Reaches(s, steps, t) && t.phase.Returned? && |steps| <= Measure(s)
    decreases Measure(s)
  {
    if s.phase.Returned? {
      steps, t := [], s;
    } else {
      StopNotStuck(s);
      var a :| Enabled(s, a);
      StepInv(s, a);
      StepDecreases(s, a);
      var rest;
      rest, t := StopCanReturn(Apply(s, a));
      steps := [a] + rest;
      assert steps[1..] == rest;
    }
  }
}
