/**
 Every connection of the server behaves as ConnectionProtocol says: its part of any run of all loops is a run of one
 connection, so that what is proved of the runs of one connection holds of each connection of a server.
 */
module ServerRefinement {
  import Basics
  import P = ConnectionProtocol
  import opened ServerProtocol

  /** The functors of connection `c` in a queue, in order. */
  function Mine(q: seq<Job>, c: nat): seq<P.Job> {
    if q == [] then []
    else Mine(q[..|q| - 1], c) + (if q[|q| - 1].Own? && q[|q| - 1].c == c then [q[|q| - 1].job] else [])
  }

  /** Those that loop `l` has still to run. */
  function MineIn(loop: Loop, c: nat): seq<P.Job> { Mine(Batch(loop), c) + Mine(loop.pending, c) }

  /** Connection `c` as one connection by itself: with its functors in the queue of its loop. */
  function View(s: State, c: nat): P.Conn
    requires Exists(s, c)
  {
    s.conns[c].conn.(jobs := MineIn(s.loops[s.conns[c].loop], c))
  }

  lemma {:induction false} MineConcat(a: seq<Job>, b: seq<Job>, c: nat)
    ensures Mine(a + b, c) == Mine(a, c) + Mine(b, c)
  {
    if b == [] {
      assert a + b == a;
    } else {
      var n := |b| - 1;
      MineConcat(a, b[..n], c);
      assert (a + b)[..|a + b| - 1] == a + b[..n];
      Regroup(Mine(a, c), Mine(b[..n], c), if b[n].Own? && b[n].c == c then [b[n].job] else []);
    }
  }

  lemma MineOne(j: Job, c: nat)
    ensures Mine([j], c) == if j.Own? && j.c == c then [j.job] else []
  {
    assert [j][..0] == [];
  }

  lemma {:induction false} MineNone(q: seq<Job>, c: nat)
    requires forall j :: j in q ==> j.c != c
    ensures Mine(q, c) == []
  {
    if q != [] { MineNone(q[..|q| - 1], c); }
  }

  // -------------------------------------------- more functors in front

  /** The connection with these functors queued before its own. */
  function Behind(jobs: seq<P.Job>, c: P.Conn): P.Conn { c.(jobs := jobs + c.jobs) }

  lemma Regroup<T>(a: seq<T>, b: seq<T>, c: seq<T>)
    ensures (a + b) + c == a + (b + c)
  {
  }

  lemma ShutBehind(front: seq<P.Job>, c: P.Conn)
    ensures P.ShutdownInLoop(Behind(front, c)) == Behind(front, P.ShutdownInLoop(c))
  {
  }

  lemma SendBehind(front: seq<P.Job>, c: P.Conn, message: string)
    ensures P.SendInLoop(Behind(front, c), message) == Behind(front, P.SendInLoop(c, message))
  {
    if c.state.Disconnected? {
      assert P.SendInLoop(Behind(front, c), message) == Behind(front, c.(messages := c.messages.Drop(message)));
    } else {
      var d := P.SendInLoop(c, message);
      assert d.jobs == c.jobs && P.SendInLoop(Behind(front, c), message) == d.(jobs := front + c.jobs);
    }
  }

  lemma TakeBehind(front: seq<P.Job>, c: P.Conn, message: string)
    ensures P.Take(Behind(front, c), message) == Behind(front, P.Take(c, message))
  {
  }

  lemma CloseBehind(front: seq<P.Job>, c: P.Conn)
    ensures P.HandleClose(Behind(front, c)) == Behind(front, P.HandleClose(c))
    ensures P.ForceCloseInLoop(Behind(front, c)) == Behind(front, P.ForceCloseInLoop(c))
  {
  }

  lemma CallBehind(front: seq<P.Job>, c: P.Conn, call: P.UserCall, inLoop: bool)
    ensures P.Call(Behind(front, c), call, inLoop) == Behind(front, P.Call(c, call, inLoop))
  {
    match call
    case Send(message) => SendCallBehind(front, c, message, inLoop);
    case Shutdown => ShutdownCallBehind(front, c, inLoop);
    case ForceClose => ForceCloseCallBehind(front, c, inLoop);
  }

  lemma SendCallBehind(front: seq<P.Job>, c: P.Conn, message: string, inLoop: bool)
    ensures P.Call(Behind(front, c), P.Send(message), inLoop) == Behind(front, P.Call(c, P.Send(message), inLoop))
  {
    TakeBehind(front, c, message);
    SendBehind(front, P.Take(c, message), message);
  }

  lemma ShutdownCallBehind(front: seq<P.Job>, c: P.Conn, inLoop: bool)
    ensures P.Call(Behind(front, c), P.Shutdown, inLoop) == Behind(front, P.Call(c, P.Shutdown, inLoop))
  {
    ShutBehind(front, c.(state := P.Disconnecting));
  }

  lemma ForceCloseCallBehind(front: seq<P.Job>, c: P.Conn, inLoop: bool)
    ensures P.Call(Behind(front, c), P.ForceClose, inLoop) == Behind(front, P.Call(c, P.ForceClose, inLoop))
  {
    Regroup(front, c.jobs, [P.ForceCloseJob]);
  }

  lemma {:induction false} CallsBehind(front: seq<P.Job>, c: P.Conn, calls: seq<P.UserCall>)
    ensures P.Calls(Behind(front, c), calls) == Behind(front, P.Calls(c, calls))
  {
    if calls != [] {
      var n := |calls| - 1;
      CallsBehind(front, c, calls[..n]);
      CallBehind(front, P.Calls(c, calls[..n]), calls[n], true);
    }
  }

  lemma ReadBehind(front: seq<P.Job>, c: P.Conn, result: P.ReadResult, cb: P.Callback)
    ensures P.HandleRead(Behind(front, c), result, cb) == Behind(front, P.HandleRead(c, result, cb))
  {
    match result
    case Data(bytes) =>
      var input := c.input + bytes;
      var got := c.(input := input[Basics.Min(cb.retrieve, |input|)..], received := c.received + bytes);
      CallsBehind(front, got, cb.calls);
    case Eof => CloseBehind(front, c);
    case ReadError =>
  }

  lemma WriteBehind(front: seq<P.Job>, c: P.Conn, n: nat, calls: seq<P.UserCall>)
    ensures P.HandleWrite(Behind(front, c), n, calls) == Behind(front, P.HandleWrite(c, n, calls))
  {
    var k := Basics.Min(n, |c.output|);
    if c.writing && k != 0 {
      var c1 := c.(written := c.written + c.output[..k], output := c.output[k..]);
      if c1.output == "" { CompleteBehind(front, c1.(writing := false), calls); }
    }
  }

  lemma CompleteBehind(front: seq<P.Job>, c: P.Conn, calls: seq<P.UserCall>)
    ensures var d, e := P.Calls(Behind(front, c), calls), P.Calls(c, calls);
            (if d.state.Disconnecting? then P.ShutdownInLoop(d) else d) ==
            Behind(front, if e.state.Disconnecting? then P.ShutdownInLoop(e) else e)
  {
    CallsBehind(front, c, calls);
    ShutBehind(front, P.Calls(c, calls));
  }

  lemma EventBehind(front: seq<P.Job>, c: P.Conn, e: P.Revents, result: P.ReadResult, cb: P.Callback, n: nat,
                    calls: seq<P.UserCall>)
    ensures P.HandleEvent(Behind(front, c), e, result, cb, n, calls) ==
            Behind(front, P.HandleEvent(c, e, result, cb, n, calls))
  {
    var c1 := if e.hup && !e.input then P.HandleClose(c) else c;
    var c2 := if e.input || e.priOrRdhup then P.HandleRead(c1, result, cb) else c1;
    CloseBehind(front, c);
    ReadBehind(front, c1, result, cb);
    WriteBehind(front, c2, n, calls);
  }

  lemma PushBehind(front: seq<P.Job>, c: P.Conn, job: P.Job)
    requires c.flying.Has(job)
    ensures P.PushJob(Behind(front, c), job) == Behind(front, P.PushJob(c, job))
  {
    Regroup(front, c.jobs, [job]);
  }

  lemma JobBehind(front: seq<P.Job>, c: P.Conn, job: P.Job)
    ensures P.RunJob(Behind(front, c), job) == Behind(front, P.RunJob(c, job))
  {
    match job
    case SendJob(message) => SendBehind(front, c, message);
    case ShutdownJob => ShutBehind(front, c);
    case ForceCloseJob => CloseBehind(front, c);
  }

  // ---------------------------------------------------- what a step queues

  lemma PushMine(s: State, l: nat, j: Job, k: nat, c: nat)
    requires l < |s.loops| && k < |s.loops|
    ensures MineIn(Push(s, l, j).loops[k], c) ==
            MineIn(s.loops[k], c) + (if k == l && j.Own? && j.c == c then [j.job] else [])
  {
    if k == l {
      var pending := s.loops[l].pending;
      MineConcat(pending, [j], c);
      MineOne(j, c);
      Regroup(Mine(Batch(s.loops[l]), c), Mine(pending, c), Mine([j], c));
    }
  }

  lemma {:induction false} PushOwnMine(s: State, l: nat, c: nat, jobs: seq<P.Job>, k: nat, d: nat)
    requires l < |s.loops| && k < |s.loops|
    ensures MineIn(PushOwn(s, l, c, jobs).loops[k], d) ==
            MineIn(s.loops[k], d) + (if k == l && d == c then jobs else [])
  {
    if jobs != [] {
      var n := |jobs| - 1;
      PushOwnMine(s, l, c, jobs[..n], k, d);
      PushMine(PushOwn(s, l, c, jobs[..n]), l, Own(c, jobs[n]), k, d);
      assert jobs == jobs[..n] + [jobs[n]];
    }
  }

  /** An operation on connection `c` puts what it queues behind its other functors, and nothing of any other's. */
  lemma SettleMine(s: State, l: nat, c: nat, conn: P.Conn, k: nat, d: nat)
    requires Exists(s, c) && k < |s.loops|
    ensures var t := Settle(s, l, c, conn);
            && k < |t.loops|
            && MineIn(t.loops[k], d) ==
               MineIn(s.loops[k], d) + (if k == s.conns[c].loop && d == c then conn.jobs else [])
  {
    var s1 := SetEntry(s, c, s.conns[c].(conn := conn.(jobs := [])));
    var home, s2 := s.conns[c].loop, Updated(s, c, conn);
    PushOwnMine(s1, home, c, conn.jobs, k, d);
    PushMine(s2, 0, Remove(c), k, d);
    PushMine(s2, home, Destroy(c), k, d);
  }

  lemma SettleEntry(s: State, l: nat, c: nat, conn: P.Conn, d: nat)
    requires Exists(s, c) && d < |s.conns|
    ensures var t := Settle(s, l, c, conn);
            && |t.conns| == |s.conns| && |t.loops| == |s.loops| && t.conns[d].loop == s.conns[d].loop
            && t.conns[d].conn == if d == c then conn.(jobs := []) else s.conns[d].conn
  {
  }

  /** So an operation on a connection is the same operation on its view, and leaves the other views alone. */
  lemma SettleView(s: State, l: nat, c: nat, conn: P.Conn, d: nat)
    requires Exists(s, c) && Exists(s, d)
    ensures Exists(Settle(s, l, c, conn), d)
    ensures View(Settle(s, l, c, conn), d) ==
            if d == c then Behind(MineIn(s.loops[s.conns[c].loop], c), conn) else View(s, d)
  {
    SettleEntry(s, l, c, conn, d);
    SettleMine(s, l, c, conn, s.conns[d].loop, d);
  }

  // ----------------------------------------------------------------- steps

  /** One step of a connection by itself, or none. */
  ghost predicate StepOrStay(c: P.Conn, d: P.Conn) {
    c == d || exists b: P.Step :: P.Enabled(c, b) && d == P.Apply(c, b)
  }

  lemma ByStep(c: P.Conn, d: P.Conn, b: P.Step)
    requires P.Enabled(c, b) && d == P.Apply(c, b)
    ensures StepOrStay(c, d)
  {
  }

  /** Only the phase of a loop changes, and not what it has still to run. */
  lemma PhaseView(s: State, l: nat, loop: Loop, c: nat)
    requires Exists(s, c) && l < |s.loops| && MineIn(loop, c) == MineIn(s.loops[l], c)
    ensures Exists(SetLoop(s, l, loop), c) && View(SetLoop(s, l, loop), c) == View(s, c)
  {
  }

  lemma DropActiveView(s: State, l: nat, c: nat)
    requires Exists(s, c) && l < |s.loops| && s.loops[l].phase.Dispatching? && s.loops[l].phase.active != []
    ensures Exists(DropActive(s, l), c) && View(DropActive(s, l), c) == View(s, c)
  {
    PhaseView(s, l, DropActive(s, l).loops[l], c);
  }

  /** A step that is an operation on connection `d`, which has become `next` without its other functors. */
  lemma SettleRefines(s: State, s0: State, l: nat, d: nat, next: P.Conn, b: P.Step, c: nat)
    requires Exists(s0, d) && Exists(s0, c) && Exists(s, c) && s0.conns == s.conns
    requires c != d ==> View(s0, c) == View(s, c)
    requires c == d ==> P.Enabled(View(s, c), b)
    requires c == d ==> P.Apply(View(s, c), b) == Behind(MineIn(s0.loops[s.conns[c].loop], c), next)
    ensures var t := Settle(s0, l, d, next); Exists(t, c) && StepOrStay(View(s, c), View(t, c))
  {
    SettleView(s0, l, d, next, c);
    if c == d { ByStep(View(s, c), View(Settle(s0, l, d, next), c), b); }
  }

  lemma ViewIs(s: State, c: nat)
    requires Exists(s, c) && s.conns[c].conn.jobs == []
    ensures View(s, c) == Behind(MineIn(s.loops[s.conns[c].loop], c), s.conns[c].conn)
  {
  }

  lemma HandleRefines(s: State, l: nat, e: P.Revents, result: P.ReadResult, cb: P.Callback, n: nat,
                      calls: seq<P.UserCall>, c: nat)
    requires Inv(s) && CanHandle(s, l, e) && Exists(s, c)
    ensures var t := Apply(s, HandleConn(l, e, result, cb, n, calls));
            Exists(t, c) && StepOrStay(View(s, c), View(t, c))
  {
    var d, s0 := s.loops[l].phase.active[0].c, DropActive(s, l);
    assert ActiveOk(s, l) && EntryOk(s, d);
    var conn := s.conns[d].conn;
    DropActiveView(s, l, c);
    ViewIs(s, d);
    EventBehind(MineIn(s.loops[s.conns[d].loop], d), conn, e, result, cb, n, calls);
    SettleRefines(s, s0, l, d, P.HandleEvent(conn, e, result, cb, n, calls), P.Event(e, result, cb, n, calls), c);
  }

  lemma UserRefines(s: State, d: nat, call: P.UserCall, inLoop: bool, c: nat)
    requires Inv(s) && Exists(s, d) && Exists(s, c)
    ensures var t := Settle(s, s.conns[d].loop, d, P.Call(s.conns[d].conn, call, inLoop));
            Exists(t, c) && StepOrStay(View(s, c), View(t, c))
  {
    assert EntryOk(s, d);
    var conn := s.conns[d].conn;
    ViewIs(s, d);
    CallBehind(MineIn(s.loops[s.conns[d].loop], d), conn, call, inLoop);
    SettleRefines(s, s, s.conns[d].loop, d, P.Call(conn, call, inLoop), P.User(call, inLoop), c);
  }

  lemma PushRefines(s: State, d: nat, job: P.Job, c: nat)
    requires Inv(s) && Exists(s, d) && Exists(s, c) && s.conns[d].conn.flying.Has(job)
    ensures var t := Settle(s, s.conns[d].loop, d, P.PushJob(s.conns[d].conn, job));
            Exists(t, c) && StepOrStay(View(s, c), View(t, c))
  {
    assert EntryOk(s, d);
    var conn := s.conns[d].conn;
    ViewIs(s, d);
    PushBehind(MineIn(s.loops[s.conns[d].loop], d), conn, job);
    SettleRefines(s, s, s.conns[d].loop, d, P.PushJob(conn, job), P.Push(job), c);
  }

  /** The functor a loop is about to run is the first one of its connection. */
  lemma FirstOfMine(s: State, l: nat, c: nat)
    requires l < |s.loops| && s.loops[l].phase.Calling? && s.loops[l].phase.batch != []
    ensures var j := s.loops[l].phase.batch[0];
            MineIn(s.loops[l], c) ==
            (if j.Own? && j.c == c then [j.job] else []) + MineIn(DropJob(s, l).loops[l], c)
  {
    var batch, pending := s.loops[l].phase.batch, s.loops[l].pending;
    MineFirst(batch, c);
    Regroup(if batch[0].Own? && batch[0].c == c then [batch[0].job] else [], Mine(batch[1..], c), Mine(pending, c));
  }

  lemma MineFirst(q: seq<Job>, c: nat)
    requires q != []
    ensures Mine(q, c) == (if q[0].Own? && q[0].c == c then [q[0].job] else []) + Mine(q[1..], c)
  {
    assert q == [q[0]] + q[1..];
    MineConcat([q[0]], q[1..], c);
    MineOne(q[0], c);
  }

  lemma DropOther(s: State, l: nat, c: nat)
    requires l < |s.loops| && s.loops[l].phase.Calling? && s.loops[l].phase.batch != [] && Exists(s, c)
    requires var j := s.loops[l].phase.batch[0]; !(j.Own? && j.c == c && l == s.conns[c].loop)
    ensures Exists(DropJob(s, l), c) && View(DropJob(s, l), c) == View(s, c)
  {
    if l == s.conns[c].loop {
      FirstOfMine(s, l, c);
    }
  }

  lemma OwnRefines(s: State, l: nat, d: nat, job: P.Job, c: nat)
    requires Inv(s) && CanRun(s, l) && s.loops[l].phase.batch[0] == Own(d, job) && Exists(s, c)
    ensures var t := Run(DropJob(s, l), l, s.loops[l].phase.batch[0]);
            Exists(t, c) && StepOrStay(View(s, c), View(t, c))
  {
    var s0, conn := DropJob(s, l), s.conns[d].conn;
    assert EntryOk(s, d);
    assert Own(d, job) in multiset(Batch(s.loops[l]));
    OwnIsHome(s, l, Own(d, job));
    if c != d { DropOther(s, l, c); } else { NextJobIs(s, l, c, job); }
    SettleRefines(s, s0, l, d, P.RunJob(conn, job), P.NextJob, c);
  }

  lemma NextJobIs(s: State, l: nat, c: nat, job: P.Job)
    requires CanRun(s, l) && s.loops[l].phase.batch[0] == Own(c, job) && Exists(s, c) && l == s.conns[c].loop
    requires s.conns[c].conn.jobs == []
    ensures P.Enabled(View(s, c), P.NextJob)
    ensures P.Apply(View(s, c), P.NextJob) == Behind(MineIn(DropJob(s, l).loops[l], c), P.RunJob(s.conns[c].conn, job))
  {
    var mine, conn := MineIn(DropJob(s, l).loops[l], c), s.conns[c].conn;
    FirstOfMine(s, l, c);
    RunsFirst(View(s, c), conn, mine, job);
  }

  lemma RunsFirst(view: P.Conn, conn: P.Conn, mine: seq<P.Job>, job: P.Job)
    requires conn.jobs == [] && view == conn.(jobs := [job] + mine)
    ensures P.Enabled(view, P.NextJob) && P.Apply(view, P.NextJob) == Behind(mine, P.RunJob(conn, job))
  {
    JobBehind(mine, conn, job);
    assert view.jobs[1..] == mine && mine + [] == mine;
    assert view.(jobs := mine) == Behind(mine, conn);
  }

  lemma LifecycleRefines(s: State, l: nat, c: nat)
    requires Inv(s) && CanRun(s, l) && !s.loops[l].phase.batch[0].Own? && Exists(s, c)
    ensures var t := Run(DropJob(s, l), l, s.loops[l].phase.batch[0]);
            Exists(t, c) && StepOrStay(View(s, c), View(t, c))
  {
    var j, s0 := s.loops[l].phase.batch[0], DropJob(s, l);
    assert EntryOk(s, j.c);
    DropOther(s, l, c);
    DropJobCount(s, l);
    match j
    case Establish(d) =>
      DroppedEstablish(s, s0, l, d);
      EstablishView(s0, d, c);
    case Remove(d) => RemoveView(s0, d, c);
    case Destroy(d) =>
      DroppedDestroy(s, s0, l, d);
      DestroyView(s0, d, c);
  }

  lemma EstablishView(s: State, d: nat, c: nat)
    requires Exists(s, d) && Exists(s, c) && s.conns[d].conn.state.Connecting?
    ensures Exists(Established(s, d), c) && StepOrStay(View(s, c), View(Established(s, d), c))
  {
    if c == d { ByStep(View(s, c), View(Established(s, d), c), P.Establish); }
  }

  lemma RemoveView(s: State, d: nat, c: nat)
    requires Exists(s, d) && Exists(s, c)
    ensures Exists(RemoveInLoop(s, d), c) && View(RemoveInLoop(s, d), c) == View(s, c)
  {
    var s1 := RemoveInLoop(s, d).(loops := s.loops);
    PushMine(s1, s.conns[d].loop, Destroy(d), s.conns[c].loop, c);
  }

  lemma DestroyView(s: State, d: nat, c: nat)
    requires Exists(s, d) && Exists(s, c) && !s.conns[d].conn.state.Connected?
    ensures Exists(Destroyed(s, d), c) && View(Destroyed(s, d), c) == View(s, c)
  {
  }

  lemma AcceptRefines(s: State, c: nat)
    requires Inv(s) && CanAccept(s) && Exists(s, c)
    ensures var t := NewConnection(DropActive(s, 0)); Exists(t, c) && View(t, c) == View(s, c)
  {
    var s0, n := DropActive(s, 0), |s.conns|;
    DropActiveView(s, 0, c);
    PushMine(s0, NextLoop(s0), Establish(n), s.conns[c].loop, c);
  }

  /** Every step of the server is, for each connection, a step of that connection by itself or no step at all. */
  lemma StepRefines(s: State, a: Step, c: nat)
    requires Inv(s) && Enabled(s, a) && Exists(s, c)
    ensures Exists(Apply(s, a), c) && StepOrStay(View(s, c), View(Apply(s, a), c))
  {
    match a
    case PollReturns(l, active) => PhaseView(s, l, Apply(s, a).loops[l], c);
    case Accept => AcceptRefines(s, c);
    case HandleConn(l, e, result, cb, n, calls) => HandleRefines(s, l, e, result, cb, n, calls, c);
    case EndDispatch(l) => PhaseView(s, l, Apply(s, a).loops[l], c);
    case RunJob(l) =>
      if s.loops[l].phase.batch[0].Own? {
        OwnRefines(s, l, s.loops[l].phase.batch[0].c, s.loops[l].phase.batch[0].job, c);
      } else {
        LifecycleRefines(s, l, c);
      }
    case EndCalls(l) => PhaseView(s, l, Apply(s, a).loops[l], c);
    case User(d, call, inLoop) => UserRefines(s, d, call, inLoop, c);
    case QueueCall(d, job) => PushRefines(s, d, job, c);
  }

  /** A new connection begins as one by itself does, established already if it is in the base loop. */
  lemma NewIsFresh(s: State)
    requires Inv(s) && CanAccept(s)
    ensures var t, n := Apply(s, Accept), |s.conns|;
            Exists(t, n) && StepOrStay(P.Fresh, View(t, n))
  {
    var s0, n := DropActive(s, 0), |s.conns|;
    DropActiveInv(s, 0);
    var io := NextLoop(s0);
    forall j | j in Batch(s0.loops[io]) || j in s0.loops[io].pending ensures j.c != n {
      assert Count(s0.loops, io, j) > 0;
    }
    MineNone(Batch(s0.loops[io]), n);
    MineNone(s0.loops[io].pending, n);
    PushMine(s0, io, Establish(n), io, n);
    if io == 0 { ByStep(P.Fresh, View(Apply(s, Accept), n), P.Establish); }
  }

  // ------------------------------------------------------------------ runs

  /** Some run of a connection by itself leads here. */
  ghost predicate Possible(c: P.Conn) { exists steps: seq<P.Step> :: P.Reaches(P.Fresh, steps, c) }

  lemma StillPossible(c: P.Conn, d: P.Conn)
    requires Possible(c) && StepOrStay(c, d)
    ensures Possible(d)
  {
    if c != d {
      var steps: seq<P.Step> :| P.Reaches(P.Fresh, steps, c);
      var b: P.Step :| P.Enabled(c, b) && d == P.Apply(c, b);
      P.RunOn(P.Fresh, steps, c, b);
    }
  }

  ghost predicate AllPossible(s: State) {
    forall c :: 0 <= c < |s.conns| ==> Exists(s, c) && Possible(View(s, c))
  }

  lemma StepPossible(s: State, a: Step)
    requires Inv(s) && Enabled(s, a) && AllPossible(s)
    ensures AllPossible(Apply(s, a))
  {
    forall c | 0 <= c < |Apply(s, a).conns| ensures Exists(Apply(s, a), c) && Possible(View(Apply(s, a), c)) {
      OnePossible(s, a, c);
    }
  }

  lemma OnePossible(s: State, a: Step, c: nat)
    requires Inv(s) && Enabled(s, a) && AllPossible(s) && c < |Apply(s, a).conns|
    ensures Exists(Apply(s, a), c) && Possible(View(Apply(s, a), c))
  {
    if c < |s.conns| {
      StepRefines(s, a, c);
      StillPossible(View(s, c), View(Apply(s, a), c));
    } else {
      OnlyAcceptAdds(s, a);
      NewIsFresh(s);
      assert P.Reaches(P.Fresh, [], P.Fresh);
      StillPossible(P.Fresh, View(Apply(s, a), c));
    }
  }

  lemma OnlyAcceptAdds(s: State, a: Step)
    requires Enabled(s, a)
    ensures |Apply(s, a).conns| == |s.conns| + (if a.Accept? then 1 else 0)
  {
  }

  lemma {:induction false} RunPossible(s: State, steps: seq<Step>, t: State)
    requires Inv(s) && AllPossible(s) && Reaches(s, steps, t)
    ensures Inv(t) && AllPossible(t)
    decreases |steps|
  {
    if steps != [] {
      StepInv(s, steps[0]);
      StepPossible(s, steps[0]);
      RunPossible(Apply(s, steps[0]), steps[1..], t);
    }
  }

  /** In every run of a server, each connection is in a state that a run of this connection by itself leads to, with the
      functors that its loop has still to run for it. */
  lemma ConnectionsAreRuns(s: State, steps: seq<Step>, t: State, c: nat) returns (alone: seq<P.Step>)
    requires Init(s) && Reaches(s, steps, t) && c < |t.conns|
    ensures Exists(t, c) && P.Reaches(P.Fresh, alone, View(t, c))
  {
    InitInv(s);
    RunPossible(s, steps, t);
    alone :| P.Reaches(P.Fresh, alone, View(t, c));
  }
}
