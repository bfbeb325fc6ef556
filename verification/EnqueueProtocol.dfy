/**
 One `enqueue_bulk` of the lock-free queue within a run: what its call keeps, when it may end without having
 reserved anything, and that a producer left alone reserves as much as there is room for.
 */
module EnqueueProtocol {
  import opened Basics
  import opened SpscProtocol

  /** Between its first load and the exchange that succeeds. */
  predicate Trying<T>(q: Producer<T>) { q.LoadedWrite? || q.Reserving? }

  /** The room in the queue at this moment. */
  function Room<T>(s: State<T>): int { |s.buffer| - (s.write - s.read) }

  /** What any step does to a call that is under way: it ends without a reservation only if nothing was left to enqueue
      or the queue is full at that moment; otherwise it keeps its items, and its count changes only where the read index
      is loaded, to the lesser of itself and the room behind the write index it knows. */
  lemma StepKeepsCall<T>(s: State<T>, a: Step<T>, p: nat)
    requires Inv(s) && Enabled(s, a) && p < |s.producers| && Trying(s.producers[p])
    ensures p < |Apply(s, a).producers|
    ensures var q, r := s.producers[p], Apply(s, a).producers[p];
            && (r.Idle? ==> a == StepLoadRead(p) && (q.count == 0 || Room(s) == 0))
            && (!r.Idle? ==> r.items == q.items)
            && (!r.Idle? && a != StepLoadRead(p) ==> r.count == q.count)
            && (!r.Idle? && a == StepLoadRead(p) ==> r.count == Min(q.count, |s.buffer| - (q.w - s.read)))
            && (Outstanding(r) ==> a == StepExchange(p))
  {
    assert RegistersOk(s, s.producers[p]);
  }

  /** Once reserved, the batch stays as it is until it has been committed; a call begins with all it was given. */
  lemma StepKeepsBatch<T>(s: State<T>, a: Step<T>, p: nat)
    requires Enabled(s, a) && p < |s.producers| && !Trying(s.producers[p])
    ensures p < |Apply(s, a).producers|
    ensures var q, r := s.producers[p], Apply(s, a).producers[p];
            && (q.Idle? && !r.Idle? ==> r.LoadedWrite? && a == StepLoadWrite(p, r.items) && r.count == |r.items|)
            && (Outstanding(q) && r.Idle? ==> a == StepCommit(p) && Apply(s, a).commit == End(q))
            && (Outstanding(q) && !r.Idle? ==>
                  Outstanding(r) && r.items == q.items && r.count == q.count && r.start == q.start)
  {
  }

  /** The call of producer `p` is under way in every state of the run. */
  ghost predicate StaysTrying<T>(s: State<T>, steps: seq<Step<T>>, p: nat)
    decreases |steps|
  {
    && p < |s.producers| && Trying(s.producers[p])
    && (steps != [] ==> Enabled(s, steps[0]) && StaysTrying(Apply(s, steps[0]), steps[1..], p))
  }

  /** Over any run: a call keeps its items, and never asks for more than before. */
  lemma {:induction false} CallKeepsItems<T>(s: State<T>, steps: seq<Step<T>>, t: State<T>, p: nat)
    requires Inv(s) && Reaches(s, steps, t) && StaysTrying(s, steps, p)
    ensures p < |t.producers| && Trying(t.producers[p]) && t.producers[p].items == s.producers[p].items
    ensures t.producers[p].count <= s.producers[p].count
    decreases |steps|
  {
    if steps != [] {
      StepInv(s, steps[0]);
      StepKeepsCall(s, steps[0], p);
      CallKeepsItems(Apply(s, steps[0]), steps[1..], t, p);
    }
  }

  /** The state in which the call has ended: with a batch of `k` items reserved behind all others, or with nothing
      if `k` is zero. */
  function Reserved<T>(s: State<T>, p: nat, k: nat): State<T>
    requires p < |s.producers| && Trying(s.producers[p]) && k <= |s.producers[p].items|
  {
    var items := s.producers[p].items;
    if k == 0 then s.(producers := s.producers[p := Idle])
    else s.(producers := s.producers[p := Filling(items, k, s.write, 0)], write := s.write + k,
            accepted := s.accepted + [items[..k]], pending := s.pending + [p])
  }

  /** What a producer that runs alone does next while its call is under way. */
  function TryStep<T>(s: State<T>, p: nat): Step<T>
    requires p < |s.producers|
  {
    if s.producers[p].LoadedWrite? then StepLoadRead(p)
    else if s.producers[p].Reserving? && s.producers[p].w == s.write then StepExchange(p)
    else StepFailExchange(p)
  }

  /** The steps this takes: with a stale write index the first exchange fails. */
  function TriesLeft<T>(s: State<T>, p: nat): nat
    requires p < |s.producers|
  {
    var q := s.producers[p];
    if !Trying(q) then 0
    else if q.w == s.write then (if q.LoadedWrite? then 2 else 1)
    else if q.LoadedWrite? then 4 else 3
  }

  /** From every reachable state in which a call is under way, its producer alone reserves the lesser of what it asks
      for and the room there is, in at most four steps; it gives up only if that is nothing. */
  lemma {:induction false} AloneReserves<T>(s: State<T>, p: nat) returns (steps: seq<Step<T>>, t: State<T>)
    requires Inv(s) && p < |s.producers| && Trying(s.producers[p])
    ensures Reaches(s, steps, t) && (forall a :: a in steps ==> TakenBy(a, p)) && |steps| <= TriesLeft(s, p) <= 4
    ensures t == Reserved(s, p, AtOnce(s, p))
    decreases TriesLeft(s, p)
  {
    TriesShrink(s, p);
    var a := TryStep(s, p);
    var s1 := Apply(s, a);
    var rest: seq<Step<T>> := [];
    if Trying(s1.producers[p]) {
      rest, t := AloneReserves(s1, p);
      SameEnd(s, s1, p);
    } else {
      t := s1;
    }
    steps := [a] + rest;
    assert steps[1..] == rest;
  }

  /** Its steps on the way change nothing of what it will reserve. */
  lemma SameEnd<T>(s: State<T>, s1: State<T>, p: nat)
    requires Inv(s) && Inv(s1) && p < |s.producers| && Trying(s.producers[p])
    requires Enabled(s, TryStep(s, p)) && s1 == Apply(s, TryStep(s, p)) && Trying(s1.producers[p])
    ensures AtOnce(s1, p) == AtOnce(s, p) && Reserved(s1, p, AtOnce(s1, p)) == Reserved(s, p, AtOnce(s, p))
  {
    assert RegistersOk(s, s.producers[p]) && RegistersOk(s1, s1.producers[p]);
    var k := Min(s.producers[p].count, Room(s));
    assert s1 == s.(producers := s1.producers);
    Overwritten(s.producers, s1.producers, p, if k == 0 then Idle else Filling(s.producers[p].items, k, s.write, 0));
  }

  lemma Overwritten<T>(a: seq<T>, b: seq<T>, p: nat, v: T)
    requires p < |a| == |b| && b == a[p := b[p]]
    ensures a[p := v] == b[p := v]
  {
  }

  /** Each of its steps is enabled and leaves it fewer; the last one ends the call. */
  lemma TriesShrink<T>(s: State<T>, p: nat)
    requires Inv(s) && p < |s.producers| && Trying(s.producers[p])
    ensures Enabled(s, TryStep(s, p)) && TakenBy(TryStep(s, p), p) && Inv(Apply(s, TryStep(s, p)))
    ensures var s1 := Apply(s, TryStep(s, p));
            && p < |s1.producers|
            && (if Trying(s1.producers[p]) then TriesLeft(s1, p) < TriesLeft(s, p)
                else s1 == Reserved(s, p, AtOnce(s, p)))
  {
    assert RegistersOk(s, s.producers[p]);
    StepInv(s, TryStep(s, p));
  }

  /** The lesser of what a call still asks for and the room in the queue. */
  ghost function AtOnce<T>(s: State<T>, p: nat): (k: nat)
    requires Inv(s) && p < |s.producers| && Trying(s.producers[p])
    ensures k <= |s.producers[p].items| && k == Min(s.producers[p].count, Room(s))
  {
    assert RegistersOk(s, s.producers[p]);
    Min(s.producers[p].count, Room(s))
  }

  /** So a call that comes to a queue with room is not refused, whatever other threads have done in the meantime. */
  lemma NotRefused<T>(init: State<T>, run: seq<Step<T>>, s: State<T>, p: nat) returns (steps: seq<Step<T>>, t: State<T>)
    requires Init(init) && Reaches(init, run, s) && p < |s.producers| && Trying(s.producers[p])
    requires s.producers[p].count > 0 && Room(s) > 0
    ensures Reaches(s, steps, t) && (forall a :: a in steps ==> TakenBy(a, p)) && |steps| <= 4
    ensures |t.accepted| == |s.accepted| + 1 && t.accepted[..|s.accepted|] == s.accepted
    ensures var k := Min(s.producers[p].count, Room(s));
            0 < k <= |s.producers[p].items| && t.accepted[|s.accepted|] == s.producers[p].items[..k]
  {
    InitInv(init);
    RunInv(init, run, s);
    steps, t := AloneReserves(s, p);
  }
}
