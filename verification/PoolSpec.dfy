/**
 What the fixed-block pool of pool.c does, on block numbers: blocks are carved from the arena one
 after the other, freed blocks are a stack, and `used` is the counter as the code keeps it.
 */
module PoolSpec {
  import opened Basics

  const SIZE_T: nat := 0x1_0000_0000_0000_0000

  /** `reuses` counts the allocations from the free list, which leave the counter as it is. */
  datatype State = State(total: nat, carved: nat, free: seq<nat>, live: set<nat>, used: nat, reuses: nat)

  predicate Distinct(s: seq<nat>) { forall i, j :: 0 <= i < j < |s| ==> s[i] != s[j] }

  /** Every block is live, free, or in the untouched tail, and only one of these; a free block is in the list once. */
  ghost predicate Partition(s: State) {
    && s.carved <= s.total
    && Distinct(s.free)
    && (forall i :: 0 <= i < |s.free| ==> s.free[i] < s.carved && s.free[i] !in s.live)
    && (forall b :: b in s.live ==> b < s.carved)
    && (forall b :: 0 <= b < s.carved && b !in s.live ==> b in s.free)
    && |s.live| + |s.free| == s.carved
  }

  /** The counter is the number of live blocks less the number of reuses, in `size_t` arithmetic. */
  predicate Counted(s: State) { s.used == (|s.live| - s.reuses) % SIZE_T }

  ghost predicate Inv(s: State) { Partition(s) && Counted(s) && s.total < SIZE_T }

  function Init(total: nat): State { State(total, 0, [], {}, 0, 0) }

  lemma InitInv(total: nat)
    requires total < SIZE_T
    ensures Inv(Init(total))
  {
  }

  /** `pool_alloc` */
  function Alloc(s: State): (State, Option<nat>) {
    if s.free != [] then
      (s.(free := s.free[1..], live := s.live + {s.free[0]}, reuses := s.reuses + 1), Some(s.free[0]))
    else if s.carved < s.total then
      (s.(carved := s.carved + 1, live := s.live + {s.carved}, used := (s.used + 1) % SIZE_T), Some(s.carved))
    else (s, None)
  }

  /** `pool_free`, of a block */
  function Free(s: State, b: nat): State {
    s.(free := [b] + s.free, live := s.live - {b}, used := (s.used + SIZE_T - 1) % SIZE_T)
  }

  lemma TailOf(s: seq<nat>)
    requires s != []
    ensures forall b :: b in s ==> b == s[0] || b in s[1..]
    ensures Distinct(s) ==> Distinct(s[1..]) && s[0] !in s[1..]
  {
    forall b | b in s ensures b == s[0] || b in s[1..] {
      var i :| 0 <= i < |s| && s[i] == b;
      if i > 0 { assert s[1..][i - 1] == b; }
    }
  }

  lemma AllocPartition(s: State)
    requires Partition(s)
    ensures Partition(Alloc(s).0)
  {
    if s.free != [] {
      TailOf(s.free);
      assert s.free[0] !in s.live;
    }
  }

  lemma FreePartition(s: State, b: nat)
    requires Partition(s) && b in s.live
    ensures Partition(Free(s, b))
  {
    var t := Free(s, b);
    assert t.free[1..] == s.free && t.free[0] == b;
    assert forall c :: c in s.free ==> c in t.free;
    if b in s.free { assert false; }
  }

  lemma AllocCounted(s: State)
    requires Inv(s)
    ensures Counted(Alloc(s).0)
  {
    if s.free == [] && s.carved < s.total {
      ModStep(|s.live| - s.reuses);
      assert |s.live + {s.carved}| == |s.live| + 1;
    } else if s.free != [] {
      assert |s.live + {s.free[0]}| == |s.live| + 1;
    }
  }

  lemma FreeCounted(s: State, b: nat)
    requires Inv(s) && b in s.live
    ensures Counted(Free(s, b))
  {
    assert |s.live - {b}| == |s.live| - 1;
    ModStep(|s.live| - s.reuses);
  }

  /** Counting up and down in `size_t`. */
  lemma ModStep(x: int)
    ensures (x % SIZE_T + 1) % SIZE_T == (x + 1) % SIZE_T
    ensures (x % SIZE_T + SIZE_T - 1) % SIZE_T == (x - 1) % SIZE_T
  {
  }

  lemma AllocInv(s: State)
    requires Inv(s)
    ensures Inv(Alloc(s).0)
  {
    AllocPartition(s);
    AllocCounted(s);
  }

  lemma FreeInv(s: State, b: nat)
    requires Inv(s) && b in s.live
    ensures Inv(Free(s, b))
  {
    FreePartition(s, b);
    FreeCounted(s, b);
  }

  lemma LiveBlock(s: State, b: nat)
    requires Inv(s) && b in s.live
    ensures b < s.total && b !in s.free
  {
  }

  /** An allocation hands out a block that was not live, unless all blocks are live: then, and only then, it fails. */
  lemma AllocGives(s: State)
    requires Inv(s)
    ensures Alloc(s).1.None? <==> |s.live| == s.total
    ensures Alloc(s).1.Some? ==> Alloc(s).1.value < s.total && Alloc(s).1.value !in s.live
                                 && Alloc(s).0.live == s.live + {Alloc(s).1.value}
    ensures Alloc(s).1.None? ==> Alloc(s).0 == s
  {
    if s.carved == s.total && s.free == [] { assert |s.live| == s.total; }
  }

  /** A step of a client: it frees only what it holds. */
  datatype Op = DoAlloc | DoFree(block: nat)

  predicate Allowed(s: State, op: Op) { op.DoFree? ==> op.block in s.live }

  function Apply(s: State, op: Op): State { if op.DoAlloc? then Alloc(s).0 else Free(s, op.block) }

  predicate Runs(s: State, ops: seq<Op>, t: State)
    decreases |ops|
  {
    if ops == [] then s == t else Allowed(s, ops[0]) && Runs(Apply(s, ops[0]), ops[1..], t)
  }

  /** Every run keeps the partition and the law of the counter. */
  lemma {:induction false} RunInv(s: State, ops: seq<Op>, t: State)
    requires Inv(s) && Runs(s, ops, t)
    ensures Inv(t) && t.total == s.total
    decreases |ops|
  {
    if ops != [] {
      if ops[0].DoAlloc? { AllocInv(s); } else { FreeInv(s, ops[0].block); }
      RunInv(Apply(s, ops[0]), ops[1..], t);
    }
  }

  /** The counter is the number of used blocks exactly when the number of reuses is a multiple of 2^64: in practice,
      as long as no block has been reused. */
  lemma UsedIsLiveIff(s: State)
    requires Inv(s)
    ensures s.used == |s.live| <==> s.reuses % SIZE_T == 0
  {
  }

  /** The counter goes wrong with the first reuse: allocate, free, allocate leaves one block live and the counter at
      zero. */
  lemma UsedIsNotLive(total: nat)
    requires 0 < total < SIZE_T
    ensures var s := Alloc(Free(Alloc(Init(total)).0, 0)).0;
            Runs(Init(total), [DoAlloc, DoFree(0), DoAlloc], s) && s.used == 0 && |s.live| == 1
  {
    var s1 := Alloc(Init(total)).0;
    var s2 := Free(s1, 0);
    assert s1.live == {0} && s2.live == {} && Alloc(s2).0.live == {0};
  }

  function FreeAll(s: State, blocks: seq<nat>): State
    decreases |blocks|
  {
    if blocks == [] then s else FreeAll(Free(s, blocks[0]), blocks[1..])
  }

  function AllocMany(s: State, n: nat): (State, seq<Option<nat>>)
    decreases n
  {
    if n == 0 then (s, [])
    else
      var (t, b) := Alloc(s);
      var (u, rest) := AllocMany(t, n - 1);
      (u, [b] + rest)
  }

  lemma {:induction false} FreeAllStacks(s: State, blocks: seq<nat>)
    ensures FreeAll(s, blocks).free == seq(|blocks|, i requires 0 <= i < |blocks| => blocks[|blocks| - 1 - i]) + s.free
    decreases |blocks|
  {
    if blocks != [] { FreeAllStacks(Free(s, blocks[0]), blocks[1..]); }
  }

  lemma {:induction false} AllocManyPops(s: State, n: nat)
    requires n <= |s.free|
    ensures |AllocMany(s, n).1| == n && forall i :: 0 <= i < n ==> AllocMany(s, n).1[i] == Some(s.free[i])
    ensures AllocMany(s, n).0.free == s.free[n..] && AllocMany(s, n).0.used == s.used
    decreases n
  {
    if n > 0 {
      var t := Alloc(s).0;
      AllocManyPops(t, n - 1);
      assert s.free[1..][n - 1..] == s.free[n..];
    }
  }

  /** Last in, first out: blocks that have been freed come back in the opposite order. */
  lemma FreedComeBack(s: State, blocks: seq<nat>)
    ensures var given := AllocMany(FreeAll(s, blocks), |blocks|).1;
            |given| == |blocks| && forall i :: 0 <= i < |blocks| ==> given[i] == Some(blocks[|blocks| - 1 - i])
  {
    FreeAllStacks(s, blocks);
    AllocManyPops(FreeAll(s, blocks), |blocks|);
  }
}
