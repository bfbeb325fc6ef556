/**
 The end of a connection is reached: from every state of a run in which it is closed, the steps of the base loop and of
 its own loop alone erase it from the map and destroy it, in a bounded number of steps.
 */
module TeardownProtocol {
  import P = ConnectionProtocol
  import opened ServerProtocol

  function First<T(==)>(q: seq<T>, x: T): (i: nat)
    requires x in q
    ensures i < |q| && q[i] == x && x !in q[..i]
  {
    if q[0] == x then 0 else 1 + First(q[1..], x)
  }

  lemma {:induction false} FirstAppend<T>(q: seq<T>, x: T, more: seq<T>)
    requires x in q
    ensures First(q + more, x) == First(q, x)
  {
    if q[0] != x {
      FirstAppend(q[1..], x, more);
      assert (q + more)[1..] == q[1..] + more;
    }
  }

  predicate Has(loop: Loop, j: Job) { j in Batch(loop) || j in loop.pending }

  /** How many steps of its loop it takes, if nothing more is polled, until functor `j` has run. */
  function Ahead(loop: Loop, j: Job): (n: nat)
    requires Has(loop, j)
    ensures 0 < n <= Load(loop) + 3
  {
    if j in Batch(loop) then First(loop.phase.batch, j) + 1
    else ToSwap(loop.phase) + First(loop.pending, j) + 1
  }

  /** The steps until the pending functors become the batch. */
  function ToSwap(phase: Phase): nat {
    match phase
    case Polling => 2
    case Dispatching(active) => |active| + 1
    case Calling(batch) => |batch| + 3
  }

  /** All there is to do in a loop: channels to handle and functors to run. */
  function Load(loop: Loop): nat { |Actives(loop)| + |Batch(loop)| + |loop.pending| }

  const Quiet := P.Revents(false, false, false, false, false)

  /** What loop `l` does next if nothing new is reported. */
  function NextStep(s: State, l: nat): Step
    requires l < |s.loops|
  {
    match s.loops[l].phase
    case Polling => PollReturns(l, [])
    case Dispatching(active) =>
      if active == [] then EndDispatch(l)
      else if active[0].Acceptor? then Accept
      else HandleConn(l, Quiet, P.ReadError, P.Callback(0, []), 0, [])
    case Calling(batch) => if batch == [] then EndCalls(l) else RunJob(l)
  }

  /** A step that loop `l` takes. */
  predicate StepOf(a: Step, l: nat) {
    match a
    case PollReturns(k, _) => k == l
    case Accept => l == 0
    case HandleConn(k, _, _, _, _, _) => k == l
    case EndDispatch(k) => k == l
    case RunJob(k) => k == l
    case EndCalls(k) => k == l
    case User(_, _, _) => false
    case QueueCall(_, _) => false
  }

  lemma NextEnabled(s: State, l: nat)
    requires Inv(s) && l < |s.loops|
    ensures Enabled(s, NextStep(s, l)) && StepOf(NextStep(s, l), l)
  {
    assert ActiveOk(s, l);
    var loop := s.loops[l];
    if loop.phase.Calling? && loop.phase.batch != [] {
      var j := loop.phase.batch[0];
      assert j in multiset(Batch(loop));
      assert Count(s.loops, l, j) > 0;
      assert EntryOk(s, j.c);
    }
    if loop.phase.Dispatching? && loop.phase.active != [] {
      var target := loop.phase.active[0];
      if target.OnConn? { assert EntryOk(s, target.c); } else { assert target in loop.phase.active; }
    }
  }

  // --------------------------------------------------- what a step leaves

  /** The loop is as it was, but for at most one functor more at the end of its queue. */
  predicate Grown(a: Loop, b: Loop) {
    b.phase == a.phase && a.pending <= b.pending && |b.pending| <= |a.pending| + 1
  }

  ghost predicate AllGrown(s: State, t: State) {
    |s.loops| == |t.loops| && forall k :: 0 <= k < |s.loops| ==> Grown(s.loops[k], t.loops[k])
  }

  lemma CallbackGrows(s: State, l: nat, c: nat)
    requires Exists(s, c)
    ensures AllGrown(s, CloseCallback(s, l, c))
  {
  }

  lemma NewGrows(s: State)
    requires |s.loops| > 0
    ensures AllGrown(s, NewConnection(s))
  {
  }

  lemma SettleGrows(s: State, l: nat, c: nat, conn: P.Conn)
    requires Exists(s, c) && conn.jobs == []
    ensures AllGrown(s, Settle(s, l, c, conn))
  {
    assert Updated(s, c, conn).loops == s.loops;
    CallbackGrows(Updated(s, c, conn), l, c);
  }

  lemma RunGrows(s: State, l: nat, j: Job)
    requires Exists(s, j.c) && Record(s.conns[j.c]) && (j.Own? ==> !s.conns[j.c].conn.state.Connecting?)
    ensures AllGrown(s, Run(s, l, j))
  {
    match j
    case Establish(_) =>
    case Remove(c) => CallbackGrows(s, 0, c);
    case Destroy(_) =>
    case Own(c, job) =>
      P.RunJobFollows(s.conns[c].conn, job);
      SettleGrows(s, l, c, P.RunJob(s.conns[c].conn, job));
  }

  /** The loop `l` after its next step, as far as the step itself goes. */
  function Moved(loop: Loop): Loop {
    match loop.phase
    case Polling => loop.(phase := Dispatching([]))
    case Dispatching(active) =>
      if active == [] then Loop(Calling(loop.pending), []) else loop.(phase := Dispatching(active[1..]))
    case Calling(batch) => loop.(phase := if batch == [] then Polling else Calling(batch[1..]))
  }

  lemma NextMoves(s: State, l: nat)
    requires Inv(s) && l < |s.loops| && Enabled(s, NextStep(s, l))
    ensures AllGrown(SetLoop(s, l, Moved(s.loops[l])), Apply(s, NextStep(s, l)))
  {
    var phase := s.loops[l].phase;
    if phase.Calling? && phase.batch != [] {
      RunMoves(s, l);
    } else if phase.Dispatching? && phase.active != [] {
      HandleMoves(s, l);
    }
  }

  lemma RunMoves(s: State, l: nat)
    requires Inv(s) && CanRun(s, l)
    ensures AllGrown(DropJob(s, l), Run(DropJob(s, l), l, s.loops[l].phase.batch[0]))
  {
    var j := s.loops[l].phase.batch[0];
    assert EntryOk(s, j.c);
    assert j in multiset(Batch(s.loops[l]));
    if j.Own? { OwnIsHome(s, l, j); }
    RunGrows(DropJob(s, l), l, j);
  }

  lemma HandleMoves(s: State, l: nat)
    requires Inv(s) && l < |s.loops| && s.loops[l].phase.Dispatching? && s.loops[l].phase.active != []
    requires Enabled(s, NextStep(s, l))
    ensures AllGrown(DropActive(s, l), Apply(s, NextStep(s, l)))
  {
    var target := s.loops[l].phase.active[0];
    assert ActiveOk(s, l);
    if target.Acceptor? {
      assert l == 0 by { assert target in s.loops[l].phase.active; }
      NewGrows(DropActive(s, 0));
    } else {
      var conn := s.conns[target.c].conn;
      assert EntryOk(s, target.c);
      assert P.HandleEvent(conn, Quiet, P.ReadError, P.Callback(0, []), 0, []) == conn;
      SettleGrows(DropActive(s, l), l, target.c, conn);
    }
  }

  /** A connection stays in its loop. */
  predicate SameHomes(s: State, t: State) {
    |s.conns| <= |t.conns| && forall d :: 0 <= d < |s.conns| ==> t.conns[d].loop == s.conns[d].loop
  }

  lemma NextKeepsHomes(s: State, l: nat)
    requires Inv(s) && l < |s.loops| && Enabled(s, NextStep(s, l))
    ensures SameHomes(s, Apply(s, NextStep(s, l)))
  {
    var phase := s.loops[l].phase;
    if phase.Calling? && phase.batch != [] {
      RunKeepsHomes(DropJob(s, l), l, phase.batch[0]);
    } else if phase.Dispatching? && phase.active != [] && phase.active[0].OnConn? {
      var conn := s.conns[phase.active[0].c].conn;
      SettleKeepsHomes(DropActive(s, l), l, phase.active[0].c,
                       P.HandleEvent(conn, Quiet, P.ReadError, P.Callback(0, []), 0, []));
    }
  }

  lemma SettleKeepsHomes(s: State, l: nat, c: nat, conn: P.Conn)
    requires Exists(s, c)
    ensures SameHomes(s, Settle(s, l, c, conn))
  {
  }

  lemma RunKeepsHomes(s: State, l: nat, j: Job)
    requires Exists(s, j.c)
    ensures SameHomes(s, Run(s, l, j))
  {
    if j.Own? { SettleKeepsHomes(s, l, j.c, P.RunJob(s.conns[j.c].conn, j.job)); }
  }

  /** The next step of its loop brings a functor one step nearer, or runs it. */
  lemma NextIsNearer(loop: Loop, after: Loop, j: Job)
    requires Has(loop, j) && Ahead(loop, j) > 1 && Grown(Moved(loop), after)
    ensures Has(after, j) && Ahead(after, j) == Ahead(loop, j) - 1
  {
    var m := Moved(loop);
    var more := after.pending[|m.pending|..];
    assert after.pending == m.pending + more;
    if j in Batch(loop) {
      assert loop.phase.batch == [loop.phase.batch[0]] + loop.phase.batch[1..];
    } else if j in m.pending {
      FirstAppend(m.pending, j, more);
    }
  }

  lemma LoadsGrow(s: State, t: State, l: nat)
    requires l < |s.loops| && AllGrown(SetLoop(s, l, Moved(s.loops[l])), t)
    ensures forall k :: 0 <= k < |s.loops| ==> Load(t.loops[k]) <= Load(s.loops[k]) + 1
  {
    forall k | 0 <= k < |s.loops| ensures Load(t.loops[k]) <= Load(s.loops[k]) + 1 {
      assert Grown(SetLoop(s, l, Moved(s.loops[l])).loops[k], t.loops[k]);
    }
  }

  // ------------------------------------------------------------------ runs

  ghost predicate Leads(s: State, a: Step, t: State) { Enabled(s, a) && t == Apply(s, a) }

  /** The steps lead from `s` to `t`: the same as `Reaches`. */
  ghost predicate Path(s: State, steps: seq<Step>, t: State)
    decreases |steps|
  {
    if steps == [] then s == t
    else exists s1 :: Leads(s, steps[0], s1) && Path(s1, steps[1..], t)
  }

  lemma {:induction false} PathReaches(s: State, steps: seq<Step>, t: State)
    requires Path(s, steps, t)
    ensures Reaches(s, steps, t)
    decreases |steps|
  {
    if steps != [] {
      var s1 :| Leads(s, steps[0], s1) && Path(s1, steps[1..], t);
      PathReaches(s1, steps[1..], t);
    }
  }

  lemma StepBefore(s: State, a: Step, s1: State, rest: seq<Step>, t: State)
    requires Leads(s, a, s1) && Path(s1, rest, t)
    ensures Path(s, [a] + rest, t)
  {
    assert ([a] + rest)[1..] == rest;
  }

  lemma {:induction false} Join(s: State, a: seq<Step>, t: State, b: seq<Step>, u: State)
    requires Path(s, a, t) && Path(t, b, u)
    ensures Path(s, a + b, u)
    decreases |a|
  {
    if a == [] {
      assert a + b == b;
    } else {
      var s1 :| Leads(s, a[0], s1) && Path(s1, a[1..], t);
      Join(s1, a[1..], t, b, u);
      StepBefore(s, a[0], s1, a[1..] + b, u);
      FirstOfConcat(a, b);
    }
  }

  lemma FirstOfConcat<T>(a: seq<T>, b: seq<T>)
    requires a != []
    ensures a + b == [a[0]] + (a[1..] + b)
  {
  }

  /** Loop `l` comes to functor `j` by its own steps. */
  lemma {:induction false} ComesTo(s: State, l: nat, j: Job) returns (steps: seq<Step>, t: State)
    requires Inv(s) && l < |s.loops| && Has(s.loops[l], j)
    ensures Path(s, steps, t) && |steps| == Ahead(s.loops[l], j) - 1 && forall a :: a in steps ==> StepOf(a, l)
    ensures Inv(t) && CanRun(t, l) && t.loops[l].phase.batch[0] == j && |t.loops| == |s.loops| && SameHomes(s, t)
    ensures forall k :: 0 <= k < |s.loops| ==> Load(t.loops[k]) <= Load(s.loops[k]) + |steps|
    decreases Ahead(s.loops[l], j)
  {
    NextEnabled(s, l);
    if Ahead(s.loops[l], j) == 1 {
      steps, t := [], s;
    } else {
      var a := NextStep(s, l);
      var s1 := Apply(s, a);
      StepInv(s, a);
      NextMoves(s, l);
      NextKeepsHomes(s, l);
      LoadsGrow(s, s1, l);
      NextIsNearer(s.loops[l], s1.loops[l], j);
      var rest;
      rest, t := ComesTo(s1, l, j);
      StepBefore(s, a, s1, rest, t);
      steps := [a] + rest;
    }
  }

  /** And runs it. */
  lemma Runs(s: State, l: nat, j: Job) returns (steps: seq<Step>, t: State, u: State)
    requires Inv(s) && l < |s.loops| && Has(s.loops[l], j)
    ensures Path(s, steps, u) && |steps| == Ahead(s.loops[l], j) && forall a :: a in steps ==> StepOf(a, l)
    ensures Inv(t) && CanRun(t, l) && t.loops[l].phase.batch[0] == j && u == Apply(t, RunJob(l))
    ensures Inv(u) && |u.loops| == |s.loops| && SameHomes(s, t) && SameHomes(t, u)
    ensures forall k :: 0 <= k < |s.loops| ==> Load(u.loops[k]) <= Load(s.loops[k]) + |steps|
  {
    var front;
    front, t := ComesTo(s, l, j);
    u := Apply(t, RunJob(l));
    StepInv(t, RunJob(l));
    NextMoves(t, l);
    NextKeepsHomes(t, l);
    LoadsGrow(t, u, l);
    StepBefore(t, RunJob(l), u, [], u);
    Join(s, front, t, [RunJob(l)] + [], u);
    steps := front + ([RunJob(l)] + []);
  }

  lemma HasIt(s: State, l: nat, j: Job)
    requires l < |s.loops| && Count(s.loops, l, j) > 0
    ensures Has(s.loops[l], j)
  {
  }

  /** An erased connection is destroyed by its own loop. */
  lemma Destruction(s: State, c: nat) returns (steps: seq<Step>, t: State)
    requires Inv(s) && c < |s.conns| && !s.conns[c].inMap && s.conns[c].destroys == 0
    ensures s.conns[c].loop < |s.loops| && |steps| <= Load(s.loops[s.conns[c].loop]) + 3
    ensures Path(s, steps, t) && forall a :: a in steps ==> StepOf(a, s.conns[c].loop)
    ensures c < |t.conns| && !t.conns[c].inMap && t.conns[c].destroys == 1 && !t.conns[c].registered
  {
    var l := s.conns[c].loop;
    assert EntryOk(s, c);
    HasIt(s, l, Destroy(c));
    var before;
    steps, before, t := Runs(s, l, Destroy(c));
    assert EntryOk(before, c);
    DropJobCount(before, l);
    DroppedDestroy(before, DropJob(before, l), l, c);
  }

  /** A closed connection still in the map is erased by the base loop. */
  lemma Erasure(s: State, c: nat) returns (steps: seq<Step>, t: State)
    requires Inv(s) && c < |s.conns| && s.conns[c].conn.state.Disconnected? && s.conns[c].inMap
    ensures Path(s, steps, t) && |steps| <= Load(s.loops[0]) + 3 && forall a :: a in steps ==> StepOf(a, 0)
    ensures Inv(t) && |t.loops| == |s.loops| && c < |t.conns| && t.conns[c].loop == s.conns[c].loop
    ensures !t.conns[c].inMap && t.conns[c].destroys == 0
    ensures forall k :: 0 <= k < |s.loops| ==> Load(t.loops[k]) <= Load(s.loops[k]) + |steps|
  {
    assert EntryOk(s, c);
    HasIt(s, 0, Remove(c));
    var before;
    steps, before, t := Runs(s, 0, Remove(c));
    assert EntryOk(before, c);
    DropJobCount(before, 0);
    DroppedRemove(before, DropJob(before, 0), 0, c);
  }

  /** From every reachable state in which a connection is closed, the steps of the base loop and of its own loop alone
      take it out of the map, destroy it and take its channel out of the poller, in a number of steps bounded by what
      the two loops have to do. */
  lemma TeardownCompletes(init: State, run: seq<Step>, s: State, c: nat) returns (steps: seq<Step>, t: State)
    requires Init(init) && Reaches(init, run, s) && c < |s.conns| && s.conns[c].conn.state.Disconnected?
    ensures 0 < |s.loops| && s.conns[c].loop < |s.loops|
    ensures Reaches(s, steps, t) && forall a :: a in steps ==> StepOf(a, 0) || StepOf(a, s.conns[c].loop)
    ensures |steps| <= 2 * Load(s.loops[0]) + Load(s.loops[s.conns[c].loop]) + 9
    ensures c < |t.conns| && !t.conns[c].inMap && t.conns[c].destroys == 1 && !t.conns[c].registered
  {
    InitInv(init);
    RunInv(init, run, s);
    assert EntryOk(s, c);
    if s.conns[c].inMap {
      var first, s1 := Erasure(s, c);
      var second;
      second, t := Destruction(s1, c);
      Join(s, first, s1, second, t);
      steps := first + second;
    } else if s.conns[c].destroys == 0 {
      steps, t := Destruction(s, c);
    } else {
      steps, t := [], s;
    }
    PathReaches(s, steps, t);
  }
}
