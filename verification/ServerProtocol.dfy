/**
 The life of connections across loops (TcpServer.cpp, TcpConnection.cpp, EventLoop.cpp): the base
 loop, loop 0, accepts connections and owns the connection map; every connection lives in one
 loop, the base loop itself when there are no others. Loops exchange queued functors. One step
 is one handler, one queued functor, one call in a loop, or the check or the push of another thread's call.
 */
module ServerProtocol {
  import P = ConnectionProtocol

  /** A functor in a loop's queue. */
  datatype Job =
    | Establish(c: nat)            // TcpConnection::connectEstablished
    | Remove(c: nat)               // TcpServer::removeConnectionInLoop
    | Destroy(c: nat)              // TcpConnection::connectDestroyed
    | Own(c: nat, job: P.Job)      // sendInLoop, shutdownInLoop, forceCloseInLoop

  datatype Target = Acceptor | OnConn(c: nat)

  datatype Phase =
    | Polling
    | Dispatching(active: seq<Target>)   // the active channels not handled yet
    | Calling(batch: seq<Job>)           // `doPendingFunctors`, the functors not run yet

  datatype Loop = Loop(phase: Phase, pending: seq<Job>)

  /** A connection with what the server and its poller know about it. */
  datatype Entry = Entry(
    conn: P.Conn, loop: nat,
    inMap: bool,          // in `connections_`
    erases: nat,          // times it has been erased from the map
    registered: bool,     // its channel is in the poller's channel map
    destroys: nat)        // times `connectDestroyed` has run

  datatype State = State(loops: seq<Loop>, conns: seq<Entry>, nextConnId: nat,
                         missedErases: nat)   // erasures that found nothing, failing the assertion

  datatype Step =
    | PollReturns(l: nat, active: seq<Target>)
    | Accept
    | HandleConn(l: nat, e: P.Revents, result: P.ReadResult, cb: P.Callback, n: nat, onComplete: seq<P.UserCall>)
    | EndDispatch(l: nat)
    | RunJob(l: nat)
    | EndCalls(l: nat)
    | User(c: nat, call: P.UserCall, inLoop: bool)
    | QueueCall(c: nat, job: P.Job)    // another thread's push into the queue of the connection's loop

  // ----------------------------------------------------------- operations

  function SetLoop(s: State, l: nat, loop: Loop): State
    requires l < |s.loops|
  {
    s.(loops := s.loops[l := loop])
  }

  function SetPhase(s: State, l: nat, phase: Phase): State
    requires l < |s.loops|
  {
    SetLoop(s, l, s.loops[l].(phase := phase))
  }

  /** `queueInLoop` */
  function Push(s: State, l: nat, j: Job): State
    requires l < |s.loops|
  {
    SetLoop(s, l, s.loops[l].(pending := s.loops[l].pending + [j]))
  }

  function PushOwn(s: State, l: nat, c: nat, jobs: seq<P.Job>): (t: State)
    requires l < |s.loops|
    ensures t.conns == s.conns && |t.loops| == |s.loops| && t.missedErases == s.missedErases
    ensures t.nextConnId == s.nextConnId && forall k :: 0 <= k < |s.loops| ==> t.loops[k].phase == s.loops[k].phase
  {
    if jobs == [] then s else Push(PushOwn(s, l, c, jobs[..|jobs|-1]), l, Own(c, jobs[|jobs|-1]))
  }

  function SetEntry(s: State, c: nat, e: Entry): State
    requires c < |s.conns|
  {
    s.(conns := s.conns[c := e])
  }

  predicate Exists(s: State, c: nat) { c < |s.conns| && s.conns[c].loop < |s.loops| && 0 < |s.loops| }

  /** `TcpServer::removeConnectionInLoop` */
  function RemoveInLoop(s: State, c: nat): State
    requires Exists(s, c)
  {
    var e := s.conns[c];
    Push(SetEntry(s, c, e.(inMap := false, erases := e.erases + (if e.inMap then 1 else 0)))
         .(missedErases := s.missedErases + (if e.inMap then 0 else 1)),
         e.loop, Destroy(c))
  }

  /** `TcpServer::removeConnection`, the close callback, called in loop `l`. */
  function CloseCallback(s: State, l: nat, c: nat): State
    requires Exists(s, c)
  {
    if l == 0 then RemoveInLoop(s, c) else Push(s, 0, Remove(c))
  }

  /** The connection has become `conn`, and what it queued on its loop is in that loop's queue. */
  function Updated(s: State, c: nat, conn: P.Conn): State
    requires Exists(s, c)
  {
    PushOwn(SetEntry(s, c, s.conns[c].(conn := conn.(jobs := []))), s.conns[c].loop, c, conn.jobs)
  }

  /** The connection has become `conn` by an operation run in loop `l`: what it queued goes to its loop's queue,
      and if it has been closed, the close callback runs. */
  function Settle(s: State, l: nat, c: nat, conn: P.Conn): State
    requires Exists(s, c)
  {
    var e, s1 := s.conns[c], Updated(s, c, conn);
    if !e.conn.state.Disconnected? && conn.state.Disconnected? then CloseCallback(s1, l, c) else s1
  }

  /** The loop of the next connection: round robin over the loops other than the base loop. */
  function NextLoop(s: State): (l: nat)
    requires |s.loops| > 0
    ensures l < |s.loops|
  {
    if |s.loops| == 1 then 0 else 1 + s.nextConnId % (|s.loops| - 1)
  }

  function Established(s: State, c: nat): State
    requires c < |s.conns|
  {
    SetEntry(s, c, s.conns[c].(conn := P.ConnectEstablished(s.conns[c].conn), registered := true))
  }

  /** `TcpServer::newConnection` */
  function NewConnection(s: State): State
    requires |s.loops| > 0
  {
    var c, io := |s.conns|, NextLoop(s);
    var s1 := s.(conns := s.conns + [Entry(P.Fresh, io, true, 0, false, 0)],
                 nextConnId := if |s.loops| == 1 then s.nextConnId else s.nextConnId + 1);
    if io == 0 then Established(s1, c) else Push(s1, io, Establish(c))
  }

  function Destroyed(s: State, c: nat): State
    requires c < |s.conns|
  {
    var e := s.conns[c];
    SetEntry(s, c, e.(conn := P.ConnectDestroyed(e.conn), registered := false, destroys := e.destroys + 1))
  }

  /** One functor of `doPendingFunctors`. */
  function Run(s: State, l: nat, j: Job): State
    requires Exists(s, j.c)
  {
    match j
    case Establish(c) => Established(s, c)
    case Remove(c) => RemoveInLoop(s, c)
    case Destroy(c) => Destroyed(s, c)
    case Own(c, job) => Settle(s, l, c, P.RunJob(s.conns[c].conn, job))
  }

  /** epoll reports a channel at most once, and only if it is in the interest set of that loop; the acceptor's is in
      the base loop's. */
  ghost predicate CanPoll(s: State, l: nat, active: seq<Target>) {
    && l < |s.loops| && s.loops[l].phase.Polling?
    && (forall i :: 0 <= i < |active| ==> active[i].OnConn? ==>
          active[i].c < |s.conns| && s.conns[active[i].c].loop == l
          && s.conns[active[i].c].registered && s.conns[active[i].c].conn.reading)
    && (Acceptor in active ==> l == 0)
    && (forall i, j :: 0 <= i < j < |active| && active[i].OnConn? ==> active[i] != active[j])
  }

  predicate CanAccept(s: State) {
    && |s.loops| > 0 && s.loops[0].phase.Dispatching? && s.loops[0].phase.active != []
    && s.loops[0].phase.active[0].Acceptor?
  }

  predicate CanHandle(s: State, l: nat, e: P.Revents) {
    && l < |s.loops| && s.loops[l].phase.Dispatching? && s.loops[l].phase.active != []
    && s.loops[l].phase.active[0].OnConn? && Exists(s, s.loops[l].phase.active[0].c)
    && !(e.hup && !e.input && e.priOrRdhup)
  }

  predicate CanRun(s: State, l: nat) {
    l < |s.loops| && s.loops[l].phase.Calling? && s.loops[l].phase.batch != [] && Exists(s, s.loops[l].phase.batch[0].c)
  }

  ghost predicate Enabled(s: State, a: Step) {
    match a
    case PollReturns(l, active) => CanPoll(s, l, active)
    case Accept => CanAccept(s)
    case HandleConn(l, e, _, _, _, _) => CanHandle(s, l, e)
    case EndDispatch(l) => l < |s.loops| && s.loops[l].phase.Dispatching? && s.loops[l].phase.active == []
    case RunJob(l) => CanRun(s, l)
    case EndCalls(l) => l < |s.loops| && s.loops[l].phase.Calling? && s.loops[l].phase.batch == []
    case User(c, _, inLoop) => Exists(s, c) && (inLoop ==> !s.loops[s.conns[c].loop].phase.Polling?)
    case QueueCall(c, job) => Exists(s, c) && s.conns[c].conn.flying.Has(job)
  }

  function DropActive(s: State, l: nat): State
    requires l < |s.loops| && s.loops[l].phase.Dispatching? && s.loops[l].phase.active != []
  {
    SetPhase(s, l, Dispatching(s.loops[l].phase.active[1..]))
  }

  function DropJob(s: State, l: nat): State
    requires l < |s.loops| && s.loops[l].phase.Calling? && s.loops[l].phase.batch != []
  {
    SetPhase(s, l, Calling(s.loops[l].phase.batch[1..]))
  }

  ghost function Apply(s: State, a: Step): State
    requires Enabled(s, a)
  {
    match a
    case PollReturns(l, active) => SetPhase(s, l, Dispatching(active))
    case Accept => NewConnection(DropActive(s, 0))
    case HandleConn(l, e, result, cb, n, onComplete) =>
      var c := s.loops[l].phase.active[0].c;
      Settle(DropActive(s, l), l, c, P.HandleEvent(s.conns[c].conn, e, result, cb, n, onComplete))
    case EndDispatch(l) => SetLoop(s, l, Loop(Calling(s.loops[l].pending), []))
    case RunJob(l) => Run(DropJob(s, l), l, s.loops[l].phase.batch[0])
    case EndCalls(l) => SetPhase(s, l, Polling)
    case User(c, call, inLoop) => Settle(s, s.conns[c].loop, c, P.Call(s.conns[c].conn, call, inLoop))
    case QueueCall(c, job) => Settle(s, s.conns[c].loop, c, P.PushJob(s.conns[c].conn, job))
  }

  ghost predicate Init(s: State) {
    |s.loops| > 0 && (forall l :: 0 <= l < |s.loops| ==> s.loops[l] == Loop(Polling, []))
    && s.conns == [] && s.missedErases == 0
  }

  ghost predicate Reaches(s: State, steps: seq<Step>, t: State)
    decreases |steps|
  {
    if steps == [] then s == t
    else Enabled(s, steps[0]) && Reaches(Apply(s, steps[0]), steps[1..], t)
  }

  // ------------------------------------------------------------- counting

  function Batch(loop: Loop): seq<Job> { if loop.phase.Calling? then loop.phase.batch else [] }

  /** How often loop `l` still has to run functor `j`. */
  ghost function Count(loops: seq<Loop>, l: nat, j: Job): nat
    requires l < |loops|
  {
    multiset(Batch(loops[l]))[j] + multiset(loops[l].pending)[j]
  }

  /** Loop `l` has the functor to establish, remove and destroy connection `c` this many times, in the loop where
      it belongs and nowhere else. */
  ghost predicate Counts(s: State, c: nat, establish: nat, remove: nat, destroy: nat)
    requires c < |s.conns|
  {
    var home := s.conns[c].loop;
    && (forall l :: 0 <= l < |s.loops| ==> Count(s.loops, l, Establish(c)) == if l == home then establish else 0)
    && (forall l :: 0 <= l < |s.loops| ==> Count(s.loops, l, Remove(c)) == if l == 0 then remove else 0)
    && (forall l :: 0 <= l < |s.loops| ==> Count(s.loops, l, Destroy(c)) == if l == home then destroy else 0)
    && (forall l, j :: 0 <= l < |s.loops| && Count(s.loops, l, Own(c, j)) > 0 ==>
          l == home && !s.conns[c].conn.state.Connecting?)
  }

  /** The facts about one entry by itself. */
  predicate Record(e: Entry) {
    && P.Inv(e.conn) && e.conn.jobs == []
    && e.erases == (if e.inMap then 0 else 1)
    && (!e.inMap ==> e.conn.state.Disconnected?)
    && e.destroys <= 1 && (e.destroys == 1 ==> !e.inMap)
    && (e.registered <==> !e.conn.state.Connecting? && e.destroys == 0)
  }

  function ToEstablish(e: Entry): nat { if e.conn.state.Connecting? then 1 else 0 }
  function ToRemove(e: Entry): nat { if e.conn.state.Disconnected? && e.inMap then 1 else 0 }
  function ToDestroy(e: Entry): nat { if !e.inMap && e.destroys == 0 then 1 else 0 }

  ghost predicate EntryOk(s: State, c: nat)
    requires c < |s.conns|
  {
    var e := s.conns[c];
    e.loop < |s.loops| && Record(e) && Counts(s, c, ToEstablish(e), ToRemove(e), ToDestroy(e))
  }

  ghost predicate NoStrangers(s: State) {
    forall l, j :: 0 <= l < |s.loops| && Count(s.loops, l, j) > 0 ==> j.c < |s.conns|
  }

  /** The channels still to be handled belong to the loop, are registered, and their connections are open. */
  ghost predicate ActiveOk(s: State, l: nat)
    requires l < |s.loops|
  {
    var phase := s.loops[l].phase;
    phase.Dispatching? ==>
      && (forall i :: 0 <= i < |phase.active| && phase.active[i].OnConn? ==>
            phase.active[i].c < |s.conns| && s.conns[phase.active[i].c].loop == l
            && s.conns[phase.active[i].c].registered && P.Open(s.conns[phase.active[i].c].conn))
      && (Acceptor in phase.active ==> l == 0)
      && (forall i, j :: 0 <= i < j < |phase.active| && phase.active[i].OnConn? ==> phase.active[i] != phase.active[j])
  }

  ghost predicate Inv(s: State) {
    && |s.loops| > 0 && s.missedErases == 0
    && (forall c :: 0 <= c < |s.conns| ==> EntryOk(s, c))
    && NoStrangers(s)
    && (forall l :: 0 <= l < |s.loops| ==> ActiveOk(s, l))
  }

  lemma PushCount(s: State, l: nat, j: Job)
    requires l < |s.loops|
    ensures forall k, i :: 0 <= k < |s.loops| ==>
              Count(Push(s, l, j).loops, k, i) == Count(s.loops, k, i) + (if k == l && i == j then 1 else 0)
  {
  }

  lemma {:induction false} PushOwnCount(s: State, l: nat, c: nat, jobs: seq<P.Job>)
    requires l < |s.loops|
    ensures |PushOwn(s, l, c, jobs).loops| == |s.loops|
    ensures forall k, i: Job :: 0 <= k < |s.loops| && (k != l || !i.Own? || i.c != c || jobs == []) ==>
              Count(PushOwn(s, l, c, jobs).loops, k, i) == Count(s.loops, k, i)
  {
    if jobs != [] {
      var init := jobs[..|jobs|-1];
      PushOwnCount(s, l, c, init);
      PushCount(PushOwn(s, l, c, init), l, Own(c, jobs[|jobs|-1]));
    }
  }

  /** Same functors to run everywhere. */
  ghost predicate SameCounts(s: State, t: State) {
    |s.loops| == |t.loops| && forall l, j :: 0 <= l < |s.loops| ==> Count(t.loops, l, j) == Count(s.loops, l, j)
  }

  /** Functors of other connections are untouched. */
  ghost predicate OthersCount(s: State, t: State, c: nat) {
    |s.loops| == |t.loops|
    && forall l, j: Job :: 0 <= l < |s.loops| && j.c != c ==> Count(t.loops, l, j) == Count(s.loops, l, j)
  }

  lemma OthersKept(s: State, t: State, c: nat)
    requires forall d :: 0 <= d < |s.conns| && d != c ==> EntryOk(s, d)
    requires OthersCount(s, t, c) && |s.conns| <= |t.conns|
    requires forall d :: 0 <= d < |s.conns| && d != c ==> t.conns[d] == s.conns[d]
    ensures forall d :: 0 <= d < |s.conns| && d != c ==> EntryOk(t, d)
  {
    forall d | 0 <= d < |s.conns| && d != c ensures EntryOk(t, d) {
      assert EntryOk(s, d);
    }
  }

  lemma StrangersKept(s: State, t: State, c: nat)
    requires NoStrangers(s) && OthersCount(s, t, c) && |s.conns| <= |t.conns| && c < |t.conns|
    ensures NoStrangers(t)
  {
  }

  /** Active lists stay good as long as their connections stay open and registered. */
  lemma ActiveKept(s: State, t: State, l: nat)
    requires l < |s.loops| == |t.loops| && ActiveOk(s, l) && |s.conns| <= |t.conns|
    requires t.loops[l].phase == s.loops[l].phase
    requires forall d :: 0 <= d < |s.conns| && s.conns[d].loop == l && OnConn(d) in Actives(s.loops[l]) ==>
               t.conns[d].loop == l && t.conns[d].registered && P.Open(t.conns[d].conn)
    ensures ActiveOk(t, l)
  {
  }

  function Actives(loop: Loop): seq<Target> { if loop.phase.Dispatching? then loop.phase.active else [] }

  // ---------------------------------------------------- invariance, by step

  lemma CountsKept(s: State, t: State, c: nat)
    requires SameCounts(s, t) && t.conns == s.conns
    requires (forall d :: 0 <= d < |s.conns| ==> EntryOk(s, d)) && NoStrangers(s)
    ensures (forall d :: 0 <= d < |s.conns| ==> EntryOk(t, d)) && NoStrangers(t)
  {
    forall d | 0 <= d < |s.conns| ensures EntryOk(t, d) { assert EntryOk(s, d); }
  }

  lemma PhaseInv(s: State, t: State, l: nat)
    requires Inv(s) && l < |s.loops| == |t.loops| && t == SetLoop(s, l, t.loops[l])
    requires multiset(Batch(t.loops[l])) + multiset(t.loops[l].pending)
             == multiset(Batch(s.loops[l])) + multiset(s.loops[l].pending)
    requires ActiveOk(t, l)
    ensures Inv(t)
  {
    forall k, j | 0 <= k < |s.loops| ensures Count(t.loops, k, j) == Count(s.loops, k, j) {
      if k == l {
        assert (multiset(Batch(t.loops[l])) + multiset(t.loops[l].pending))[j]
               == (multiset(Batch(s.loops[l])) + multiset(s.loops[l].pending))[j];
      }
    }
    CountsKept(s, t, 0);
    forall k | 0 <= k < |s.loops| ensures ActiveOk(t, k) {
      if k != l { ActiveKept(s, t, k); }
    }
  }

  lemma PollInv(s: State, l: nat, active: seq<Target>)
    requires Inv(s) && CanPoll(s, l, active)
    ensures Inv(SetPhase(s, l, Dispatching(active)))
  {
    var t := SetPhase(s, l, Dispatching(active));
    forall i | 0 <= i < |active| && active[i].OnConn? ensures P.Open(t.conns[active[i].c].conn) {
      assert EntryOk(s, active[i].c);
    }
    PhaseInv(s, t, l);
  }

  lemma DropActiveInv(s: State, l: nat)
    requires Inv(s) && l < |s.loops| && s.loops[l].phase.Dispatching? && s.loops[l].phase.active != []
    ensures Inv(DropActive(s, l))
    ensures s.loops[l].phase.active[0].OnConn? ==>
              s.loops[l].phase.active[0] !in Actives(DropActive(s, l).loops[l])
  {
    assert ActiveOk(s, l);
    PhaseInv(s, DropActive(s, l), l);
  }

  /** Everything but the entry of `c` survives a change of that entry and of its functors. */
  lemma EntryChange(s: State, t: State, c: nat)
    requires Inv(s) && c < |s.conns| == |t.conns| && OthersCount(s, t, c) && t.missedErases == 0
    requires t.conns == s.conns[c := t.conns[c]] && EntryOk(t, c)
    requires forall l :: 0 <= l < |s.loops| ==> t.loops[l].phase == s.loops[l].phase
    requires t.conns[c].loop == s.conns[c].loop
    requires OnConn(c) in Actives(s.loops[s.conns[c].loop]) ==> t.conns[c].registered && P.Open(t.conns[c].conn)
    ensures Inv(t)
  {
    OthersKept(s, t, c);
    StrangersKept(s, t, c);
    forall l | 0 <= l < |s.loops| ensures ActiveOk(t, l) {
      forall d | 0 <= d < |s.conns| && s.conns[d].loop == l && OnConn(d) in Actives(s.loops[l])
        ensures t.conns[d].loop == l && t.conns[d].registered && P.Open(t.conns[d].conn)
      {
        assert ActiveOk(s, l);
      }
      ActiveKept(s, t, l);
    }
  }

  lemma PushEstablish(s: State, c: nat)
    requires c < |s.conns| && s.conns[c].loop < |s.loops| && Counts(s, c, 0, 0, 0)
    ensures Counts(Push(s, s.conns[c].loop, Establish(c)), c, 1, 0, 0)
  {
    PushCount(s, s.conns[c].loop, Establish(c));
  }

  lemma PushRemove(s: State, c: nat)
    requires c < |s.conns| && 0 < |s.loops| && Counts(s, c, 0, 0, 0)
    ensures Counts(Push(s, 0, Remove(c)), c, 0, 1, 0)
  {
    PushCount(s, 0, Remove(c));
  }

  lemma PushDestroy(s: State, c: nat)
    requires c < |s.conns| && s.conns[c].loop < |s.loops| && Counts(s, c, 0, 0, 0)
    ensures Counts(Push(s, s.conns[c].loop, Destroy(c)), c, 0, 0, 1)
  {
    PushCount(s, s.conns[c].loop, Destroy(c));
  }

  lemma PushOwnCounts(s: State, c: nat, jobs: seq<P.Job>, a: nat, b: nat, d: nat)
    requires c < |s.conns| && s.conns[c].loop < |s.loops| && Counts(s, c, a, b, d)
    requires jobs != [] ==> !s.conns[c].conn.state.Connecting?
    ensures Counts(PushOwn(s, s.conns[c].loop, c, jobs), c, a, b, d)
  {
    PushOwnCount(s, s.conns[c].loop, c, jobs);
  }

  /** An operation on a connection that is not being established keeps everything, provided a close
      does not hit a connection that is still to be handled. */
  lemma SettleInv(s: State, l: nat, c: nat, conn: P.Conn)
    requires Inv(s) && Exists(s, c) && P.Inv(conn)
    requires conn.state.Connecting? == s.conns[c].conn.state.Connecting?
    requires s.conns[c].conn.state.Disconnected? ==> conn.state.Disconnected?
    requires conn.state.Disconnected? ==> OnConn(c) !in Actives(s.loops[s.conns[c].loop])
    ensures Inv(Settle(s, l, c, conn))
  {
    var e := s.conns[c];
    assert EntryOk(s, c);
    var s2 := Updated(s, c, conn);
    UpdatedCounts(s, c, conn);
    if !e.conn.state.Disconnected? && conn.state.Disconnected? {
      if l == 0 { CloseInBaseLoop(s, s2, c); } else { CloseElsewhere(s, s2, c); }
    } else {
      StaysInv(s, c, conn);
    }
  }

  /** The connection has not been closed just now. */
  lemma StaysInv(s: State, c: nat, conn: P.Conn)
    requires Inv(s) && Exists(s, c) && P.Inv(conn)
    requires conn.state.Connecting? == s.conns[c].conn.state.Connecting?
    requires conn.state.Disconnected? <==> s.conns[c].conn.state.Disconnected?
    requires conn.state.Disconnected? ==> OnConn(c) !in Actives(s.loops[s.conns[c].loop])
    ensures Inv(Updated(s, c, conn))
  {
    assert EntryOk(s, c);
    UpdatedCounts(s, c, conn);
    StaysOk(s, c, conn);
    if OnConn(c) in Actives(s.loops[s.conns[c].loop]) { assert ActiveOk(s, s.conns[c].loop); }
    EntryChange(s, Updated(s, c, conn), c);
  }

  lemma StaysOk(s: State, c: nat, conn: P.Conn)
    requires Exists(s, c) && P.Inv(conn) && EntryOk(s, c)
    requires conn.state.Connecting? == s.conns[c].conn.state.Connecting?
    requires conn.state.Disconnected? <==> s.conns[c].conn.state.Disconnected?
    ensures EntryOk(Updated(s, c, conn), c)
  {
    UpdatedCounts(s, c, conn);
  }

  lemma UpdatedCounts(s: State, c: nat, conn: P.Conn)
    requires Exists(s, c) && EntryOk(s, c) && P.Inv(conn)
    requires conn.state.Connecting? == s.conns[c].conn.state.Connecting?
    ensures OthersCount(s, Updated(s, c, conn), c)
    ensures Counts(Updated(s, c, conn), c, ToEstablish(s.conns[c]), ToRemove(s.conns[c]), ToDestroy(s.conns[c]))
  {
    var e := s.conns[c];
    var s1 := SetEntry(s, c, e.(conn := conn.(jobs := [])));
    PushOwnCounts(s1, c, conn.jobs, ToEstablish(e), ToRemove(e), ToDestroy(e));
    PushOwnCount(s1, e.loop, c, conn.jobs);
  }

  /** What the close callback finds: only the connection itself has changed so far. */
  ghost predicate JustClosed(s: State, s2: State, c: nat) {
    && Exists(s, c) && c < |s2.conns| == |s.conns| && OthersCount(s, s2, c)
    && s2.missedErases == 0 && s2.conns == s.conns[c := s.conns[c].(conn := s2.conns[c].conn)]
    && (forall k :: 0 <= k < |s.loops| ==> s2.loops[k].phase == s.loops[k].phase)
    && P.Inv(s2.conns[c].conn) && s2.conns[c].conn.jobs == [] && s2.conns[c].conn.state.Disconnected?
    && P.Open(s.conns[c].conn) && Counts(s2, c, 0, 0, 0)
    && OnConn(c) !in Actives(s.loops[s.conns[c].loop])
  }

  lemma CloseInBaseLoop(s: State, s2: State, c: nat)
    requires Inv(s) && JustClosed(s, s2, c)
    ensures Inv(RemoveInLoop(s2, c))
  {
    assert EntryOk(s, c);
    RemoveCounts(s2, c);
    EntryChange(s, RemoveInLoop(s2, c), c);
  }

  lemma CloseElsewhere(s: State, s2: State, c: nat)
    requires Inv(s) && JustClosed(s, s2, c)
    ensures Inv(Push(s2, 0, Remove(c)))
  {
    assert EntryOk(s, c);
    PushCount(s2, 0, Remove(c));
    PushRemove(s2, c);
    EntryChange(s, Push(s2, 0, Remove(c)), c);
  }

  /** In `t` loop `l` has the functor `j` once less to run. */
  ghost predicate OneLess(s: State, t: State, l: nat, j: Job) {
    && l < |s.loops| == |t.loops| && t.conns == s.conns
    && forall k, i :: 0 <= k < |s.loops| ==>
         Count(s.loops, k, i) == Count(t.loops, k, i) + (if k == l && i == j then 1 else 0)
  }

  lemma DropJobCount(s: State, l: nat)
    requires l < |s.loops| && s.loops[l].phase.Calling? && s.loops[l].phase.batch != []
    ensures OneLess(s, DropJob(s, l), l, s.loops[l].phase.batch[0])
  {
    var batch := s.loops[l].phase.batch;
    assert batch == [batch[0]] + batch[1..];
  }

  // A lifecycle functor about to run was the only one of its kind, and no other is left for the connection.

  lemma DroppedEstablish(s: State, t: State, l: nat, c: nat)
    requires c < |s.conns| && EntryOk(s, c) && OneLess(s, t, l, Establish(c))
    ensures Counts(t, c, 0, 0, 0) && s.conns[c].conn.state.Connecting? && l == s.conns[c].loop
  {
    assert Count(s.loops, l, Establish(c)) > 0;
  }

  lemma DroppedRemove(s: State, t: State, l: nat, c: nat)
    requires c < |s.conns| && EntryOk(s, c) && OneLess(s, t, l, Remove(c))
    ensures Counts(t, c, 0, 0, 0) && s.conns[c].conn.state.Disconnected? && s.conns[c].inMap && l == 0
  {
    assert Count(s.loops, l, Remove(c)) > 0;
  }

  lemma DroppedDestroy(s: State, t: State, l: nat, c: nat)
    requires c < |s.conns| && EntryOk(s, c) && OneLess(s, t, l, Destroy(c))
    ensures Counts(t, c, 0, 0, 0) && !s.conns[c].inMap && s.conns[c].destroys == 0 && l == s.conns[c].loop
  {
    assert Count(s.loops, l, Destroy(c)) > 0;
  }

  lemma DroppedOther(s: State, t: State, l: nat, j: Job)
    requires OneLess(s, t, l, j)
    ensures OthersCount(s, t, j.c)
  {
  }

  lemma RunEstablishInv(s: State, l: nat)
    requires Inv(s) && CanRun(s, l) && s.loops[l].phase.batch[0].Establish?
    ensures Inv(Run(DropJob(s, l), l, s.loops[l].phase.batch[0]))
  {
    var c, s0 := s.loops[l].phase.batch[0].c, DropJob(s, l);
    assert EntryOk(s, c);
    DropJobCount(s, l);
    DroppedEstablish(s, s0, l, c);
    DroppedOther(s, s0, l, s.loops[l].phase.batch[0]);
    LifecycleChange(s, s0, Established(s0, c), l, c);
  }

  /** The erasure finds the connection: the assertion `n == 1` holds. */
  lemma RunRemoveInv(s: State, l: nat)
    requires Inv(s) && CanRun(s, l) && s.loops[l].phase.batch[0].Remove?
    ensures Inv(Run(DropJob(s, l), l, s.loops[l].phase.batch[0]))
    ensures s.conns[s.loops[l].phase.batch[0].c].inMap
  {
    var c, s0 := s.loops[l].phase.batch[0].c, DropJob(s, l);
    assert EntryOk(s, c);
    DropJobCount(s, l);
    DroppedRemove(s, s0, l, c);
    DroppedOther(s, s0, l, s.loops[l].phase.batch[0]);
    RemoveCounts(s0, c);
    LifecycleChange(s, s0, RemoveInLoop(s0, c), l, c);
  }

  lemma RunDestroyInv(s: State, l: nat)
    requires Inv(s) && CanRun(s, l) && s.loops[l].phase.batch[0].Destroy?
    ensures Inv(Run(DropJob(s, l), l, s.loops[l].phase.batch[0]))
  {
    var c, s0 := s.loops[l].phase.batch[0].c, DropJob(s, l);
    assert EntryOk(s, c);
    DropJobCount(s, l);
    DroppedDestroy(s, s0, l, c);
    DroppedOther(s, s0, l, s.loops[l].phase.batch[0]);
    LifecycleChange(s, s0, Destroyed(s0, c), l, c);
  }

  lemma RemoveCounts(s: State, c: nat)
    requires Exists(s, c) && s.conns[c].inMap && s.conns[c].erases == 0 && Counts(s, c, 0, 0, 0)
    ensures Counts(RemoveInLoop(s, c), c, 0, 0, 1) && OthersCount(s, RemoveInLoop(s, c), c)
  {
    var s1 := SetEntry(s, c, s.conns[c].(inMap := false, erases := 1));
    PushCount(s1, s.conns[c].loop, Destroy(c));
    PushDestroy(s1, c);
  }

  lemma LifecycleChange(s: State, s0: State, t: State, l: nat, c: nat)
    requires Inv(s) && CanRun(s, l) && s0 == DropJob(s, l) && c < |s.conns| == |t.conns|
    requires OthersCount(s, t, c) && t.missedErases == 0
    requires t.conns == s.conns[c := t.conns[c]] && EntryOk(t, c) && t.conns[c].loop == s.conns[c].loop
    requires forall k :: 0 <= k < |s.loops| ==> t.loops[k].phase == s0.loops[k].phase
    requires !P.Open(s.conns[c].conn)
    ensures Inv(t)
  {
    OthersKept(s, t, c);
    StrangersKept(s, t, c);
    forall k | 0 <= k < |s.loops| ensures ActiveOk(t, k) {
      assert ActiveOk(s, k);
    }
  }

  lemma RunOwnInv(s: State, l: nat)
    requires Inv(s) && CanRun(s, l) && s.loops[l].phase.batch[0].Own?
    ensures Inv(Run(DropJob(s, l), l, s.loops[l].phase.batch[0]))
  {
    var j := s.loops[l].phase.batch[0];
    var c, s0 := j.c, DropJob(s, l);
    assert EntryOk(s, c);
    DropJobCount(s, l);
    DroppedOwn(s, s0, l, j);
    OwnIsHome(s, l, j);
    P.RunJobFollows(s.conns[c].conn, j.job);
    SettleInv(s0, l, c, P.RunJob(s.conns[c].conn, j.job));
  }

  /** Any other functor leaves its connection as it is. */
  lemma DroppedOwn(s: State, t: State, l: nat, j: Job)
    requires Inv(s) && OneLess(s, t, l, j) && j.Own? && t.missedErases == 0
    requires forall k :: 0 <= k < |s.loops| && t.loops[k].phase.Dispatching? ==> t.loops[k].phase == s.loops[k].phase
    ensures Inv(t)
  {
    forall d | 0 <= d < |t.conns| ensures EntryOk(t, d) {
      assert EntryOk(s, d);
      EntryKept(s, t, l, j, d);
    }
    forall k | 0 <= k < |t.loops| ensures ActiveOk(t, k) { assert ActiveOk(s, k); }
    NoneStranger(s, t, l, j);
  }

  lemma EntryKept(s: State, t: State, l: nat, j: Job, d: nat)
    requires d < |s.conns| && EntryOk(s, d) && OneLess(s, t, l, j) && j.Own?
    ensures EntryOk(t, d)
  {
  }

  lemma NoneStranger(s: State, t: State, l: nat, j: Job)
    requires NoStrangers(s) && OneLess(s, t, l, j)
    ensures NoStrangers(t)
  {
    forall k, i | 0 <= k < |t.loops| && Count(t.loops, k, i) > 0 ensures i.c < |t.conns| {
      assert Count(s.loops, k, i) > 0;
    }
  }

  /** The connection of such a functor has been established. */
  lemma OwnIsHome(s: State, l: nat, j: Job)
    requires j.c < |s.conns| && EntryOk(s, j.c) && l < |s.loops| && j.Own? && Count(s.loops, l, j) > 0
    ensures l == s.conns[j.c].loop && !s.conns[j.c].conn.state.Connecting?
  {
  }

  lemma NewEntryOk(s: State)
    requires |s.loops| > 0 && NoStrangers(s)
    ensures EntryOk(NewConnection(s), |s.conns|) && OthersCount(s, NewConnection(s), |s.conns|)
  {
    var c, io := |s.conns|, NextLoop(s);
    var s1 := s.(conns := s.conns + [Entry(P.Fresh, io, true, 0, false, 0)],
                 nextConnId := NewConnection(s).nextConnId);
    assert Counts(s1, c, 0, 0, 0);
    if io != 0 {
      PushCount(s1, io, Establish(c));
      PushEstablish(s1, c);
    }
  }

  lemma NewConnectionInv(s: State)
    requires Inv(s)
    ensures Inv(NewConnection(s))
  {
    var c, t := |s.conns|, NewConnection(s);
    NewEntryOk(s);
    OthersKept(s, t, c);
    StrangersKept(s, t, c);
    forall l | 0 <= l < |s.loops| ensures ActiveOk(t, l) {
      forall d | 0 <= d < |s.conns| && s.conns[d].loop == l && OnConn(d) in Actives(s.loops[l])
        ensures t.conns[d].loop == l && t.conns[d].registered && P.Open(t.conns[d].conn)
      {
        assert ActiveOk(s, l);
        assert t.conns[d] == s.conns[d];
      }
      ActiveKept(s, t, l);
    }
  }

  lemma HandleConnInv(s: State, l: nat, e: P.Revents, result: P.ReadResult, cb: P.Callback, n: nat,
                      onComplete: seq<P.UserCall>)
    requires Inv(s) && CanHandle(s, l, e)
    ensures Inv(Apply(s, HandleConn(l, e, result, cb, n, onComplete)))
  {
    var c := s.loops[l].phase.active[0].c;
    assert ActiveOk(s, l) && EntryOk(s, c);
    DropActiveInv(s, l);
    var s0 := DropActive(s, l);
    P.HandleEventFollows(s.conns[c].conn, e, result, cb, n, onComplete);
    SettleInv(s0, l, c, P.HandleEvent(s.conns[c].conn, e, result, cb, n, onComplete));
  }

  lemma UserInv(s: State, c: nat, call: P.UserCall, inLoop: bool)
    requires Inv(s) && Exists(s, c)
    ensures Inv(Settle(s, s.conns[c].loop, c, P.Call(s.conns[c].conn, call, inLoop)))
  {
    assert EntryOk(s, c) && ActiveOk(s, s.conns[c].loop);
    P.CallFollows(s.conns[c].conn, call, inLoop);
    SettleInv(s, s.conns[c].loop, c, P.Call(s.conns[c].conn, call, inLoop));
  }

  lemma QueueCallInv(s: State, c: nat, job: P.Job)
    requires Inv(s) && Exists(s, c) && s.conns[c].conn.flying.Has(job)
    ensures Inv(Settle(s, s.conns[c].loop, c, P.PushJob(s.conns[c].conn, job)))
  {
    assert EntryOk(s, c) && ActiveOk(s, s.conns[c].loop);
    P.PushFollows(s.conns[c].conn, job);
    SettleInv(s, s.conns[c].loop, c, P.PushJob(s.conns[c].conn, job));
  }

  lemma StepInv(s: State, a: Step)
    requires Inv(s) && Enabled(s, a)
    ensures Inv(Apply(s, a))
  {
    match a
    case PollReturns(l, active) => PollInv(s, l, active);
    case Accept =>
      DropActiveInv(s, 0);
      NewConnectionInv(DropActive(s, 0));
    case HandleConn(l, e, result, cb, n, onComplete) => HandleConnInv(s, l, e, result, cb, n, onComplete);
    case EndDispatch(l) => PhaseInv(s, Apply(s, a), l);
    case RunJob(l) =>
      match s.loops[l].phase.batch[0] {
        case Establish(_) => RunEstablishInv(s, l);
        case Remove(_) => RunRemoveInv(s, l);
        case Destroy(_) => RunDestroyInv(s, l);
        case Own(_, _) => RunOwnInv(s, l);
      }
    case EndCalls(l) => PhaseInv(s, Apply(s, a), l);
    case User(c, call, inLoop) => UserInv(s, c, call, inLoop);
    case QueueCall(c, job) => QueueCallInv(s, c, job);
  }

  lemma InitInv(s: State)
    requires Init(s)
    ensures Inv(s)
  {
  }

  lemma {:induction false} RunInv(s: State, steps: seq<Step>, t: State)
    requires Inv(s) && Reaches(s, steps, t)
    ensures Inv(t)
    decreases |steps|
  {
    if steps != [] {
      StepInv(s, steps[0]);
      RunInv(Apply(s, steps[0]), steps[1..], t);
    }
  }

  // -------------------------------------------------------------- theorems

  /** In every run of any number of loops and connections: the states of each connection only move forward, it gets
      one UP callback once established and at most one DOWN callback, it is erased from the map at most
      once and every erasure finds it, and it leaves the poller only after that. */
  lemma Lifecycle(s: State, steps: seq<Step>, t: State, c: nat)
    requires Init(s) && Reaches(s, steps, t) && c < |t.conns|
    ensures t.missedErases == 0 && t.conns[c].erases == (if t.conns[c].inMap then 0 else 1)
    ensures !t.conns[c].inMap ==> t.conns[c].conn.state.Disconnected?
    ensures t.conns[c].conn.ups == (if t.conns[c].conn.state.Connecting? then 0 else 1)
    ensures t.conns[c].conn.downs == (if t.conns[c].conn.state.Disconnected? then 1 else 0)
    ensures t.conns[c].destroys <= 1 && (t.conns[c].destroys == 1 ==> !t.conns[c].inMap && !t.conns[c].registered)
    ensures !t.conns[c].conn.assertFailed
  {
    InitInv(s);
    RunInv(s, steps, t);
    assert EntryOk(t, c);
  }

  /** In every run, each channel a loop has still to handle belongs to that loop, is registered, and its connection
      is open: nothing is unregistered or closed in the middle of a dispatch. */
  lemma NothingUnregisteredMidDispatch(s: State, steps: seq<Step>, t: State, l: nat, i: nat)
    requires Init(s) && Reaches(s, steps, t) && l < |t.loops| && t.loops[l].phase.Dispatching?
    requires i < |t.loops[l].phase.active| && t.loops[l].phase.active[i].OnConn?
    ensures t.loops[l].phase.active[i].c < |t.conns|
    ensures var e := t.conns[t.loops[l].phase.active[i].c]; e.loop == l && e.registered && P.Open(e.conn)
  {
    InitInv(s);
    RunInv(s, steps, t);
    assert ActiveOk(t, l);
  }

  /** In every run, a closed connection that is still in the map has its removal queued on the base loop, once,
      and one that has left the map has its destruction queued on its own loop, once, until that has run. */
  lemma TeardownOnItsWay(s: State, steps: seq<Step>, t: State, c: nat)
    requires Init(s) && Reaches(s, steps, t) && c < |t.conns|
    ensures t.conns[c].loop < |t.loops| && 0 < |t.loops|
    ensures Count(t.loops, 0, Remove(c)) == (if t.conns[c].conn.state.Disconnected? && t.conns[c].inMap then 1 else 0)
    ensures Count(t.loops, t.conns[c].loop, Destroy(c)) ==
              (if !t.conns[c].inMap && t.conns[c].destroys == 0 then 1 else 0)
    ensures forall l :: 0 <= l < |t.loops| && l != t.conns[c].loop ==> Count(t.loops, l, Destroy(c)) == 0
  {
    InitInv(s);
    RunInv(s, steps, t);
    assert EntryOk(t, c);
  }

  /** An entry never goes back: not to an earlier state, not into the map again, not out of it twice. */
  predicate Forward(e: Entry, f: Entry) {
    P.Rank(e.conn.state) <= P.Rank(f.conn.state) && (!e.inMap ==> !f.inMap && f.erases == e.erases)
    && e.destroys <= f.destroys
  }

  lemma SettleForward(s: State, l: nat, c: nat, conn: P.Conn, d: nat)
    requires Exists(s, c) && d < |s.conns| && Record(s.conns[c])
    requires P.Rank(s.conns[c].conn.state) <= P.Rank(conn.state)
    ensures |Settle(s, l, c, conn).conns| == |s.conns|
    ensures Forward(s.conns[d], Settle(s, l, c, conn).conns[d])
    ensures Settle(s, l, c, conn).conns[d].registered == s.conns[d].registered
  {
  }

  lemma RunForward(s: State, l: nat, c: nat)
    requires Inv(s) && CanRun(s, l) && c < |s.conns|
    ensures var t := Run(DropJob(s, l), l, s.loops[l].phase.batch[0]);
            && c < |t.conns| && Forward(s.conns[c], t.conns[c])
            && (s.conns[c].registered && !t.conns[c].registered ==>
                  l == s.conns[c].loop && s.loops[l].phase.batch[0] == Destroy(c))
  {
    var j := s.loops[l].phase.batch[0];
    assert EntryOk(s, j.c);
    var s0 := DropJob(s, l);
    DropJobCount(s, l);
    match j
    case Establish(d) => DroppedEstablish(s, s0, l, d);
    case Remove(d) => DroppedRemove(s, s0, l, d);
    case Destroy(d) => DroppedDestroy(s, s0, l, d);
    case Own(d, job) =>
      OwnIsHome(s, l, j);
      P.RunJobFollows(s.conns[d].conn, job);
      SettleForward(s0, l, d, P.RunJob(s.conns[d].conn, job), c);
  }

  lemma HandleForward(s: State, l: nat, e: P.Revents, result: P.ReadResult, cb: P.Callback, n: nat,
                      onComplete: seq<P.UserCall>, c: nat)
    requires Inv(s) && CanHandle(s, l, e) && c < |s.conns|
    ensures var d := s.loops[l].phase.active[0].c;
            var t := Settle(DropActive(s, l), l, d, P.HandleEvent(s.conns[d].conn, e, result, cb, n, onComplete));
            c < |t.conns| && Forward(s.conns[c], t.conns[c]) && t.conns[c].registered == s.conns[c].registered
  {
    var d := s.loops[l].phase.active[0].c;
    assert ActiveOk(s, l) && EntryOk(s, d);
    P.HandleEventFollows(s.conns[d].conn, e, result, cb, n, onComplete);
    SettleForward(DropActive(s, l), l, d, P.HandleEvent(s.conns[d].conn, e, result, cb, n, onComplete), c);
  }

  /** No step takes a connection back, and a channel leaves the poller only by the functor that its own loop runs in
      `doPendingFunctors`. */
  lemma StepsMoveForward(s: State, a: Step, c: nat)
    requires Inv(s) && Enabled(s, a) && c < |s.conns|
    ensures c < |Apply(s, a).conns| && Forward(s.conns[c], Apply(s, a).conns[c])
    ensures s.conns[c].registered && !Apply(s, a).conns[c].registered ==>
              a == RunJob(s.conns[c].loop) && s.loops[s.conns[c].loop].phase.batch[0] == Destroy(c)
  {
    match a
    case HandleConn(l, e, result, cb, n, onComplete) => HandleForward(s, l, e, result, cb, n, onComplete, c);
    case User(d, call, inLoop) =>
      assert EntryOk(s, d);
      P.CallFollows(s.conns[d].conn, call, inLoop);
      SettleForward(s, s.conns[d].loop, d, P.Call(s.conns[d].conn, call, inLoop), c);
    case QueueCall(d, job) =>
      assert EntryOk(s, d);
      P.PushFollows(s.conns[d].conn, job);
      SettleForward(s, s.conns[d].loop, d, P.PushJob(s.conns[d].conn, job), c);
    case RunJob(l) => RunForward(s, l, c);
    case _ =>
  }
}
