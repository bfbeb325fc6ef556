/**
 Which loop a new connection goes to (TcpServer.cpp): the worker loops in turn, so that over any run each of them gets
 the same number of connections, give or take one.
 */
module RoundRobin {
  import opened RingIndex
  import P = ConnectionProtocol
  import opened ServerProtocol

  /** The worker loop behind `l`, of the loops 1 to `w`. */
  function Following(l: nat, w: nat): nat { if l == w then 1 else l + 1 }

  lemma NextRemainder(a: nat, w: nat)
    requires w > 0
    ensures (a + 1) % w == if a % w + 1 == w then 0 else a % w + 1
  {
    var q, r := a / w, a % w;
    assert a + 1 == w * q + (r + 1);
    if r + 1 == w {
      assert a + 1 == w * (q + 1) + 0;
      RemainderUnique(a + 1, w, q + 1, 0);
    } else {
      RemainderUnique(a + 1, w, q, r + 1);
    }
  }

  /** Each connection is in the worker loop behind that of the one before, and the next one will be; without worker
      loops all are in the base loop. */
  ghost predicate InTurn(s: State) {
    && |s.loops| > 0
    && (forall i :: 0 <= i < |s.conns| ==>
          if |s.loops| == 1 then s.conns[i].loop == 0 else 0 < s.conns[i].loop < |s.loops|)
    && (|s.loops| > 1 ==>
          && (forall i, j :: 0 <= i && j == i + 1 < |s.conns| ==>
                s.conns[j].loop == Following(s.conns[i].loop, |s.loops| - 1))
          && (s.conns != [] ==> NextLoop(s) == Following(s.conns[|s.conns| - 1].loop, |s.loops| - 1)))
  }

  lemma AcceptInTurn(s: State)
    requires InTurn(s)
    ensures InTurn(NewConnection(s)) && |NewConnection(s).loops| == |s.loops|
  {
    if |s.loops| > 1 { NextRemainder(s.nextConnId, |s.loops| - 1); }
  }

  /** No other step moves a connection or the turn. */
  ghost predicate SameTurn(s: State, t: State) {
    && |t.loops| == |s.loops| && |t.conns| == |s.conns| && t.nextConnId == s.nextConnId
    && forall i :: 0 <= i < |s.conns| ==> t.conns[i].loop == s.conns[i].loop
  }

  lemma SettleSameTurn(s: State, l: nat, c: nat, conn: P.Conn)
    requires Exists(s, c)
    ensures SameTurn(s, Settle(s, l, c, conn))
  {
  }

  lemma RunSameTurn(s: State, l: nat, j: Job)
    requires Exists(s, j.c)
    ensures SameTurn(s, Run(s, l, j))
  {
    if j.Own? { SettleSameTurn(s, l, j.c, P.RunJob(s.conns[j.c].conn, j.job)); }
  }

  lemma HandleSameTurn(s: State, l: nat, c: nat, conn: P.Conn)
    requires l < |s.loops| && s.loops[l].phase.Dispatching? && s.loops[l].phase.active != [] && Exists(s, c)
    ensures SameTurn(s, Settle(DropActive(s, l), l, c, conn))
  {
    SettleSameTurn(DropActive(s, l), l, c, conn);
  }

  lemma TurnKept(s: State, t: State)
    requires InTurn(s) && SameTurn(s, t)
    ensures InTurn(t)
  {
  }

  /** Every step but the acceptance of a connection. */
  lemma OtherStep(s: State, a: Step)
    requires Enabled(s, a) && !a.Accept?
    ensures SameTurn(s, Apply(s, a))
  {
    match a
    case HandleConn(l, e, result, cb, n, onComplete) =>
      var c := s.loops[l].phase.active[0].c;
      HandleSameTurn(s, l, c, P.HandleEvent(s.conns[c].conn, e, result, cb, n, onComplete));
    case RunJob(l) => RunSameTurn(DropJob(s, l), l, s.loops[l].phase.batch[0]);
    case User(c, call, inLoop) => SettleSameTurn(s, s.conns[c].loop, c, P.Call(s.conns[c].conn, call, inLoop));
    case QueueCall(c, job) => SettleSameTurn(s, s.conns[c].loop, c, P.PushJob(s.conns[c].conn, job));
    case _ =>
  }

  lemma StepInTurn(s: State, a: Step)
    requires InTurn(s) && Enabled(s, a)
    ensures InTurn(Apply(s, a)) && |Apply(s, a).loops| == |s.loops|
  {
    if a.Accept? {
      AcceptInTurn(DropActive(s, 0));
    } else {
      OtherStep(s, a);
      TurnKept(s, Apply(s, a));
    }
  }

  lemma {:induction false} RunInTurn(s: State, steps: seq<Step>, t: State)
    requires InTurn(s) && Reaches(s, steps, t)
    ensures InTurn(t) && |t.loops| == |s.loops|
    decreases |steps|
  {
    if steps != [] {
      StepInTurn(s, steps[0]);
      RunInTurn(Apply(s, steps[0]), steps[1..], t);
    }
  }

  // --------------------------------------------------------------- balance

  function Homes(conns: seq<Entry>): (ls: seq<nat>)
    ensures |ls| == |conns| && forall i :: 0 <= i < |ls| ==> ls[i] == conns[i].loop
  {
    seq(|conns|, i requires 0 <= i < |conns| => conns[i].loop)
  }

  function Occurs(ls: seq<nat>, l: nat): nat {
    if ls == [] then 0 else Occurs(ls[..|ls| - 1], l) + (if ls[|ls| - 1] == l then 1 else 0)
  }

  ghost predicate Successive(ls: seq<nat>, w: nat) {
    && (forall i :: 0 <= i < |ls| ==> 0 < ls[i] <= w)
    && (forall i, j :: 0 <= i && j == i + 1 < |ls| ==> ls[j] == Following(ls[i], w))
  }

  /** Going round from `first` to `last`, one comes by `l`. */
  predicate OnTheWay(first: nat, last: nat, l: nat) {
    if first <= last then first <= l <= last else first <= l || l <= last
  }

  lemma {:induction false} EqualRounds(ls: seq<nat>, w: nat) returns (q: nat)
    requires ls != [] && Successive(ls, w)
    ensures forall l :: 0 < l <= w ==> Occurs(ls, l) == q + (if OnTheWay(ls[0], ls[|ls| - 1], l) then 1 else 0)
  {
    if |ls| == 1 {
      q := 0;
      assert ls[..0] == [];
    } else {
      var front := ls[..|ls| - 1];
      q := EqualRounds(front, w);
      if ls[|ls| - 1] == ls[0] { q := q + 1; }
    }
  }

  /** In every run any two worker loops have been given the same number of connections, give or take one; without worker
      loops the base loop has them all. */
  lemma FairShare(s: State, steps: seq<Step>, t: State, l: nat, k: nat)
    requires Init(s) && Reaches(s, steps, t)
    ensures |t.loops| == 1 ==> forall i :: 0 <= i < |t.conns| ==> t.conns[i].loop == 0
    ensures 0 < l < |t.loops| && 0 < k < |t.loops| ==>
              -1 <= Occurs(Homes(t.conns), l) - Occurs(Homes(t.conns), k) <= 1
  {
    RunInTurn(s, steps, t);
    if |t.loops| > 1 && t.conns != [] {
      var q := EqualRounds(Homes(t.conns), |t.loops| - 1);
    }
  }
}
