/**
 The callbacks of one `handleRead`: which operations they amount to, and what becomes of what each of them does.
 */
module TimerCallbacks {
  import opened TimerSchedule

  /** The operations `ops` fall into one section for each expired timer, in order, and each section is exactly what the
      callback of that timer does. */
  ghost predicate Sections(ops: seq<Op>, expired: seq<Timer>, callback: Timer -> seq<Op>) {
    exists cuts: seq<nat> :: SectionsAt(ops, cuts, expired, callback)
  }

  ghost predicate SectionsAt(ops: seq<Op>, cuts: seq<nat>, expired: seq<Timer>, callback: Timer -> seq<Op>) {
    && |cuts| == |expired| + 1 && cuts[0] == 0 && cuts[|expired|] == |ops|
    && forall i, j :: 0 <= i && j == i + 1 < |cuts| ==>
         cuts[i] <= cuts[j] <= |ops| && ops[cuts[i]..cuts[j]] == callback(expired[i])
  }

  lemma {:induction false} AllOpsAt(expired: seq<Timer>, callback: Timer -> seq<Op>) returns (cuts: seq<nat>)
    ensures SectionsAt(AllOps(expired, callback), cuts, expired, callback)
  {
    if expired == [] {
      cuts := [0];
    } else {
      var front, last := expired[..|expired| - 1], callback(expired[|expired| - 1]);
      var before := AllOpsAt(front, callback);
      var ops := AllOps(front, callback);
      cuts := before + [|ops| + |last|];
      SectionBehind(ops, before, front, expired[|expired| - 1], callback);
      assert front + [expired[|expired| - 1]] == expired;
    }
  }

  lemma SectionBehind(ops: seq<Op>, cuts: seq<nat>, expired: seq<Timer>, t: Timer, callback: Timer -> seq<Op>)
    requires SectionsAt(ops, cuts, expired, callback)
    ensures SectionsAt(ops + callback(t), cuts + [|ops + callback(t)|], expired + [t], callback)
  {
    var all, more := ops + callback(t), cuts + [|ops + callback(t)|];
    forall i, j | 0 <= i && j == i + 1 < |more|
      ensures more[i] <= more[j] <= |all| && all[more[i]..more[j]] == callback((expired + [t])[i])
    {
      if j < |cuts| {
        assert all[cuts[i]..cuts[j]] == ops[cuts[i]..cuts[j]];
      } else {
        assert all[|ops|..|all|] == callback(t);
      }
    }
  }

  /** Some callback of the read cancels timer `t`, known from before. */
  ghost predicate Cancels(expired: seq<Timer>, callback: Timer -> seq<Op>, t: Timer) {
    exists i :: 0 <= i < |expired| && CancelTimer(t) in callback(expired[i])
  }

  /** Some callback cancels the `m`-th timer added during the read, which is `t`. */
  ghost predicate CancelsNew(expired: seq<Timer>, callback: Timer -> seq<Op>, t: Timer, m: nat) {
    exists i :: 0 <= i < |expired| && (CancelTimer(t) in callback(expired[i]) || CancelAdded(m) in callback(expired[i]))
  }

  lemma {:induction false} InAllOps(expired: seq<Timer>, callback: Timer -> seq<Op>, op: Op)
    ensures op in AllOps(expired, callback) <==> exists i :: 0 <= i < |expired| && op in callback(expired[i])
  {
    if expired != [] {
      var n := |expired| - 1;
      InAllOps(expired[..n], callback, op);
      if op in AllOps(expired[..n], callback) {
        var i :| 0 <= i < n && op in callback(expired[..n][i]);
        assert op in callback(expired[i]);
      }
      if i :| 0 <= i < |expired| && op in callback(expired[i]) {
        if i < n { assert op in callback(expired[..n][i]); }
      }
    }
  }

  /** How many timers the callbacks of the first `n` expired timers add. */
  function AddsBefore(expired: seq<Timer>, callback: Timer -> seq<Op>, n: nat): nat
    requires n <= |expired|
  {
    if n == 0 then 0 else AddsBefore(expired, callback, n - 1) + |Adds(callback(expired[n - 1]))|
  }

  lemma AddsOfOne(op: Op)
    ensures Adds([op]) == if op.Add? then [op] else []
  {
    assert [op][..0] == [];
  }

  /** The additions are the operations that add, each once and in order. */
  lemma {:induction false} AddsAre(ops: seq<Op>, i: nat)
    requires i < |ops| && ops[i].Add?
    ensures |Adds(ops[..i])| < |Adds(ops)| && Adds(ops)[|Adds(ops[..i])|] == ops[i]
  {
    AfterOpsConcat(Schedule(map[], {}, 0), ops[..i + 1], ops[i + 1..], []);
    AfterOpsConcat(Schedule(map[], {}, 0), ops[..i], [ops[i]], []);
    AddsOfOne(ops[i]);
    assert ops == ops[..i + 1] + ops[i + 1..] && ops[..i + 1] == ops[..i] + [ops[i]];
  }

  lemma {:induction false} AddsOfAll(expired: seq<Timer>, callback: Timer -> seq<Op>)
    ensures |Adds(AllOps(expired, callback))| == AddsBefore(expired, callback, |expired|)
  {
    if expired != [] {
      var n := |expired| - 1;
      AddsOfAll(expired[..n], callback);
      SameBefore(expired, callback, n, n);
      AfterOpsConcat(Schedule(map[], {}, 0), AllOps(expired[..n], callback), callback(expired[n]), []);
    }
  }

  lemma {:induction false} SameBefore(expired: seq<Timer>, callback: Timer -> seq<Op>, n: nat, k: nat)
    requires k <= n <= |expired|
    ensures AddsBefore(expired[..n], callback, k) == AddsBefore(expired, callback, k)
  {
    if k > 0 { SameBefore(expired, callback, n, k - 1); }
  }

  /** Where the additions of one callback are among all. */
  lemma {:induction false} AddsOfCallback(expired: seq<Timer>, callback: Timer -> seq<Op>, i: nat, j: nat)
    requires i < |expired| && j < |Adds(callback(expired[i]))|
    ensures AddsBefore(expired, callback, i) + j < |Adds(AllOps(expired, callback))|
    ensures Adds(AllOps(expired, callback))[AddsBefore(expired, callback, i) + j] == Adds(callback(expired[i]))[j]
    decreases |expired|
  {
    var n := |expired| - 1;
    var front := expired[..n];
    AfterOpsConcat(Schedule(map[], {}, 0), AllOps(front, callback), callback(expired[n]), []);
    SameBefore(expired, callback, n, i);
    if i < n {
      AddsOfCallback(front, callback, i, j);
    } else {
      AddsOfAll(front, callback);
    }
  }

  /** The timers `made` are those that the callbacks add, each as it was asked for; and those that no callback cancels
      are in the heap, with the time they were given. */
  ghost predicate AllAdded(expired: seq<Timer>, callback: Timer -> seq<Op>, made: seq<Timer>, due: map<Timer, int>) {
    && |made| == AddsBefore(expired, callback, |expired|)
    && forall i, j :: 0 <= i < |expired| && 0 <= j < |Adds(callback(expired[i]))| ==>
         AddedAs(expired, callback, made, due, AddsBefore(expired, callback, i) + j, Adds(callback(expired[i]))[j])
  }

  ghost predicate AddedAs(expired: seq<Timer>, callback: Timer -> seq<Op>, made: seq<Timer>, due: map<Timer, int>,
                          m: nat, op: Op) {
    && op.Add? && m < |made| && made[m].interval == op.interval && made[m].repeats == op.repeats
    && (!CancelsNew(expired, callback, made[m], m) ==> made[m] in due && due[made[m]] == op.when)
  }

  lemma ReadAddsAll(due: map<Timer, int>, deleted: set<Timer>, expired: seq<Timer>, callback: Timer -> seq<Op>,
                    made: seq<Timer>, known: set<Timer>, after: set<Timer>, now: int)
    requires Made([], made, AllOps(expired, callback), known, after) && Elements(expired) <= known
    ensures AllAdded(expired, callback, made,
                     AfterRead(due, deleted, expired, AllOps(expired, callback), made, now).due)
  {
    var ops := AllOps(expired, callback);
    var s := AfterRead(due, deleted, expired, ops, made, now);
    AddsOfAll(expired, callback);
    forall i, j | 0 <= i < |expired| && 0 <= j < |Adds(callback(expired[i]))|
      ensures AddedAs(expired, callback, made, s.due, AddsBefore(expired, callback, i) + j,
                      Adds(callback(expired[i]))[j])
    {
      ReadAddsOne(due, deleted, expired, callback, made, known, after, now, i, j);
    }
  }

  lemma ReadAddsOne(due: map<Timer, int>, deleted: set<Timer>, expired: seq<Timer>, callback: Timer -> seq<Op>,
                    made: seq<Timer>, known: set<Timer>, after: set<Timer>, now: int, i: nat, j: nat)
    requires Made([], made, AllOps(expired, callback), known, after) && Elements(expired) <= known
    requires i < |expired| && j < |Adds(callback(expired[i]))|
    ensures AddedAs(expired, callback, made, AfterRead(due, deleted, expired, AllOps(expired, callback), made, now).due,
                    AddsBefore(expired, callback, i) + j, Adds(callback(expired[i]))[j])
  {
    var ops, m := AllOps(expired, callback), AddsBefore(expired, callback, i) + j;
    AddsOfCallback(expired, callback, i, j);
    MadeAs(made, ops, known, after, m);
    if !CancelsNew(expired, callback, made[m], m) {
      NotCancelled(expired, callback, made[m], m);
      assert made[m] !in Elements(expired);
      ReadAdds(due, deleted, expired, ops, made, now, m);
    }
  }

  /** What is known of the `m`-th new timer. */
  lemma MadeAs(made: seq<Timer>, ops: seq<Op>, known: set<Timer>, after: set<Timer>, m: nat)
    requires Made([], made, ops, known, after) && m < |Adds(ops)|
    ensures |made| == |Adds(ops)| && made[m] !in known && (forall i, k :: 0 <= i < k < |made| ==> made[i] != made[k])
    ensures made[m].interval == Adds(ops)[m].interval && made[m].repeats == Adds(ops)[m].repeats
  {
    assert Adds(ops)[m - 0] == Adds(ops)[m];
  }

  lemma NotCancelled(expired: seq<Timer>, callback: Timer -> seq<Op>, t: Timer, m: nat)
    requires !CancelsNew(expired, callback, t, m)
    ensures CancelTimer(t) !in AllOps(expired, callback) && CancelAdded(m) !in AllOps(expired, callback)
  {
    InAllOps(expired, callback, CancelTimer(t));
    InAllOps(expired, callback, CancelAdded(m));
  }
}
