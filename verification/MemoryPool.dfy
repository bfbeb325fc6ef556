/**
 The memory pool of pool.c on bytes: an arena in which every free block holds, in its first eight
 bytes, the address of the next free block. The rest of a block, and all of a live one, is the client's.
 */
module MemoryPool {
  import opened Basics
  import opened PoolSpec

  type Byte = x: int | 0 <= x < 256

  const NULL: nat := 0
  const POINTER_SIZE: nat := 8

  /** The little-endian bytes of a number. */
  function ToBytes(n: nat, k: nat): (s: seq<Byte>)
    ensures |s| == k
  {
    if k == 0 then [] else [n % 256] + ToBytes(n / 256, k - 1)
  }

  function FromBytes(s: seq<Byte>): nat { if s == [] then 0 else s[0] + 256 * FromBytes(s[1..]) }

  function Pow256(k: nat): nat { if k == 0 then 1 else 256 * Pow256(k - 1) }

  lemma {:induction false} BytesRoundTrip(n: nat, k: nat)
    requires n < Pow256(k)
    ensures FromBytes(ToBytes(n, k)) == n
  {
    if k > 0 {
      BytesRoundTrip(n / 256, k - 1);
      assert ToBytes(n, k)[1..] == ToBytes(n / 256, k - 1);
    }
  }

  lemma PointerRoundTrip(p: nat)
    requires p < SIZE_T
    ensures FromBytes(ToBytes(p, POINTER_SIZE)) == p
  {
    assert Pow256(2) == 65536;
    assert Pow256(4) == 65536 * Pow256(2);
    assert Pow256(6) == 65536 * Pow256(4);
    assert Pow256(8) == 65536 * Pow256(6);
    BytesRoundTrip(p, POINTER_SIZE);
  }

  /** Where a block begins in the arena. */
  function Offset(b: nat, size: nat): nat { if b == 0 then 0 else Offset(b - 1, size) + size }

  lemma {:induction false} OffsetIs(b: nat, size: nat)
    ensures Offset(b, size) == b * size
  {
    if b > 0 {
      OffsetIs(b - 1, size);
      assert b * size == (b - 1) * size + size;
    }
  }

  lemma {:induction false} BlocksDisjoint(b: nat, c: nat, size: nat)
    requires b < c
    ensures Offset(b, size) + size <= Offset(c, size)
  {
    if b + 1 < c { BlocksDisjoint(b, c - 1, size); }
  }

  lemma {:induction false} WholeBlocks(c: nat, size: nat)
    requires size > 0
    ensures Offset(c, size) / size == c
  {
    if c > 0 {
      WholeBlocks(c - 1, size);
      OneMore(Offset(c - 1, size), size);
    }
  }

  lemma OneMore(x: nat, size: nat)
    requires size > 0
    ensures (x + size) / size == x / size + 1
  {
    var q, r := x / size, x % size;
    assert x + size == (q + 1) * size + r;
    QuotientIs(x + size, size, q + 1, r);
  }

  lemma FarFromZero(d: int, size: nat)
    ensures d > 0 ==> d * size >= size
    ensures d < 0 ==> d * size <= -(size as int)
  {
  }

  lemma QuotientIs(x: nat, size: nat, q: nat, r: nat)
    requires size > 0 && x == q * size + r && r < size
    ensures x / size == q
  {
    var d := x / size - q;
    assert x == (x / size) * size + x % size;
    assert d * size == r - x % size;
    FarFromZero(d, size);
  }

  /** Blocks tile the arena: every byte of it is in exactly one block. */
  lemma {:induction false} BlocksTile(at: nat, size: nat, total: nat) returns (b: nat)
    requires size > 0 && at < Offset(total, size)
    ensures b < total && Offset(b, size) <= at < Offset(b, size) + size
    ensures forall c: nat :: Offset(c, size) <= at < Offset(c, size) + size ==> c == b
    decreases total
  {
    if at >= Offset(total - 1, size) {
      b := total - 1;
    } else {
      b := BlocksTile(at, size, total - 1);
    }
    forall c: nat | Offset(c, size) <= at < Offset(c, size) + size ensures c == b {
      if b < c { BlocksDisjoint(b, c, size); }
      else if c < b { BlocksDisjoint(c, b, size); }
    }
  }

  lemma {:induction false} AlignedOffset(b: nat, size: nat)
    requires size % POINTER_SIZE == 0
    ensures Offset(b, size) % POINTER_SIZE == 0
  {
    if b > 0 { AlignedOffset(b - 1, size); }
  }

  predicate AllAligned(start: nat, size: nat, total: nat) {
    forall b :: 0 <= b < total ==> (start + Offset(b, size)) % POINTER_SIZE == 0
  }

  lemma AlignedBlocks(start: nat, size: nat, total: nat)
    requires start % POINTER_SIZE == 0 && size % POINTER_SIZE == 0
    ensures AllAligned(start, size, total)
  {
    forall b | 0 <= b < total ensures (start + Offset(b, size)) % POINTER_SIZE == 0 {
      AlignedOffset(b, size);
    }
  }

  /** All blocks can hold pointers at aligned addresses exactly if the block size is a multiple of the pointer size,
      or there is no second block. */
  lemma AlignedIff(start: nat, size: nat, total: nat)
    requires start % POINTER_SIZE == 0
    ensures AllAligned(start, size, total) <==> size % POINTER_SIZE == 0 || total <= 1
  {
    if size % POINTER_SIZE == 0 {
      AlignedBlocks(start, size, total);
    } else if total > 1 {
      assert Offset(1, size) == size;
      assert (start + Offset(1, size)) % POINTER_SIZE != 0;
    }
  }

  /** At this offset, memory holds this pointer. */
  predicate LinkAt(mem: seq<Byte>, at: nat, p: nat) {
    at + POINTER_SIZE <= |mem| && FromBytes(mem[at..at + POINTER_SIZE]) == p
  }

  function Head(start: nat, size: nat, free: seq<nat>): nat {
    if free == [] then NULL else start + Offset(free[0], size)
  }

  /** The free blocks are linked in the order of the list, the last one to null. */
  predicate Links(mem: seq<Byte>, start: nat, size: nat, free: seq<nat>)
    decreases |free|
  {
    free == [] || (LinkAt(mem, Offset(free[0], size), Head(start, size, free[1..]))
        && Links(mem, start, size, free[1..]))
  }

  /** Memory changes in one block only. */
  predicate SameOutside(mem: seq<Byte>, mem': seq<Byte>, b: nat, size: nat) {
    |mem'| == |mem| && forall k :: 0 <= k < |mem| && !(Offset(b, size) <= k < Offset(b, size) + size) ==>
      mem'[k] == mem[k]
  }

  lemma LinkKept(mem: seq<Byte>, mem': seq<Byte>, b: nat, c: nat, size: nat, p: nat)
    requires SameOutside(mem, mem', b, size) && b != c && size >= POINTER_SIZE && LinkAt(mem, Offset(c, size), p)
    ensures LinkAt(mem', Offset(c, size), p)
  {
    if b < c { BlocksDisjoint(b, c, size); } else { BlocksDisjoint(c, b, size); }
    var at := Offset(c, size);
    assert mem'[at..at + POINTER_SIZE] == mem[at..at + POINTER_SIZE];
  }

  /** Changes in a block that is not free leave the free list alone. */
  lemma {:induction false} LinksKept(mem: seq<Byte>, mem': seq<Byte>, start: nat, size: nat, free: seq<nat>, b: nat)
    requires Links(mem, start, size, free) && SameOutside(mem, mem', b, size) && b !in free && size >= POINTER_SIZE
    ensures Links(mem', start, size, free)
    decreases |free|
  {
    if free != [] {
      LinkKept(mem, mem', b, free[0], size, Head(start, size, free[1..]));
      LinksKept(mem, mem', start, size, free[1..], b);
    }
  }

  /** Storing the old head in a block that is not free puts the block in front of the list. */
  lemma LinksPush(mem: seq<Byte>, mem': seq<Byte>, start: nat, size: nat, free: seq<nat>, b: nat)
    requires Links(mem, start, size, free) && SameOutside(mem, mem', b, size) && b !in free && size >= POINTER_SIZE
    requires LinkAt(mem', Offset(b, size), Head(start, size, free))
    ensures Links(mem', start, size, [b] + free)
  {
    LinksKept(mem, mem', start, size, free, b);
    assert ([b] + free)[1..] == free;
  }

  class Pool {
    var blockSize: nat
    var totalBlocks: nat
    var usedCount: nat
    var poolStart: nat
    var nextFree: nat
    var freeListHead: nat
    var arena: array<Byte>     // the memory from `poolStart` on
    ghost var state: State

    /** The arena is as large as the blocks need, and its addresses are pointers. */
    ghost predicate ArenaOk()
      reads this
    {
      && blockSize >= POINTER_SIZE && poolStart != NULL && arena.Length == Offset(totalBlocks, blockSize)
      && poolStart + arena.Length < SIZE_T
    }

    ghost predicate FieldsOk()
      reads this
    {
      && state.total == totalBlocks && state.used == usedCount
      && nextFree == poolStart + Offset(state.carved, blockSize)
      && freeListHead == Head(poolStart, blockSize, state.free)
    }

    ghost predicate Valid()
      reads this, arena
    {
      ArenaOk() && FieldsOk() && Inv(state) && Links(arena[..], poolStart, blockSize, state.free)
    }

    /** `pool_init`: `start` is the memory that `malloc` yields for the arena. The size of the arena is computed in
        `size_t`, so that the pool is sound exactly if that does not overflow. */
    constructor (blockSize: nat, numBlocks: nat, start: nat)
      requires blockSize < SIZE_T && numBlocks < SIZE_T && start != NULL
      requires start + (RoundedUp(blockSize) * numBlocks) % SIZE_T < SIZE_T
      ensures Valid() <==> RoundedUp(blockSize) * numBlocks < SIZE_T
      ensures state == Init(numBlocks) && this.blockSize == RoundedUp(blockSize) && poolStart == start
      ensures fresh(arena)
    {
      this.blockSize, totalBlocks, usedCount := RoundedUp(blockSize), numBlocks, 0;
      poolStart, nextFree, freeListHead := start, start, NULL;
      arena := new Byte[(RoundedUp(blockSize) * numBlocks) % SIZE_T];
      state := Init(numBlocks);
      new;
      InitInv(numBlocks);
      OffsetIs(numBlocks, RoundedUp(blockSize));
    }

    /** `pool_alloc`: the block, or null exactly if all blocks are live. */
    method Alloc() returns (ptr: nat)
      requires Valid()
      modifies this`freeListHead, this`nextFree, this`usedCount, this`state
      ensures Valid() && state == PoolSpec.Alloc(old(state)).0
      ensures ptr ==
                match PoolSpec.Alloc(old(state)).1 {
                  case Some(b) => poolStart + Offset(b, blockSize)
                  case None => NULL
                }
      ensures ptr == NULL <==> |old(state).live| == totalBlocks
    {
      AllocGives(state);
      AllocInv(state);
      WholeBlocks(state.carved, blockSize);
      if freeListHead != NULL {
        ptr := TakeFree();
        return;
      }
      var linearUsed := (nextFree - poolStart) / blockSize;
      if linearUsed < totalBlocks {
        ptr := Carve();
        return;
      }
      ptr := NULL;
    }

    /** The branch of `pool_alloc` that takes the head of the free list. */
    method TakeFree() returns (ptr: nat)
      requires Valid() && freeListHead != NULL && Inv(PoolSpec.Alloc(state).0)
      modifies this`freeListHead, this`state
      ensures Valid() && state == PoolSpec.Alloc(old(state)).0
      ensures old(state).free != [] && ptr == poolStart + Offset(old(state).free[0], blockSize)
    {
      ptr := freeListHead;
      var at := ptr - poolStart;
      assert LinkAt(arena[..], at, Head(poolStart, blockSize, state.free[1..]));
      assert arena[..][at..at + POINTER_SIZE] == arena[at..at + POINTER_SIZE];
      freeListHead := FromBytes(arena[at..at + POINTER_SIZE]);
      state := PoolSpec.Alloc(state).0;
    }

    /** The branch of `pool_alloc` that takes the next block of the arena. */
    method Carve() returns (ptr: nat)
      requires Valid() && state.free == [] && state.carved < totalBlocks && Inv(PoolSpec.Alloc(state).0)
      modifies this`nextFree, this`usedCount, this`state
      ensures Valid() && state == PoolSpec.Alloc(old(state)).0
      ensures ptr == poolStart + Offset(old(state).carved, blockSize)
    {
      ptr := nextFree;
      nextFree := nextFree + blockSize;
      usedCount := (usedCount + 1) % SIZE_T;
      state := PoolSpec.Alloc(state).0;
    }

    /** `pool_free`, of null or of a live block `b`: the block becomes the head of the free list. No byte outside it
        changes. */
    method Free(ptr: nat, ghost b: nat)
      requires Valid() && (ptr != NULL ==> b in state.live && ptr == poolStart + Offset(b, blockSize))
      modifies this`freeListHead, this`usedCount, this`state, arena
      ensures Valid() && state == if ptr == NULL then old(state) else PoolSpec.Free(old(state), b)
      ensures SameOutside(old(arena[..]), arena[..], b, blockSize)
    {
      if ptr == NULL {
        return;
      }
      FreeInv(state, b);
      LiveBlock(state, b);
      BlocksDisjoint(b, totalBlocks, blockSize);
      HeadFits();
      Push(ptr - poolStart, b);
    }

    /** The stores of `pool_free`. */
    method Push(at: nat, ghost b: nat)
      requires ArenaOk() && FieldsOk() && Links(arena[..], poolStart, blockSize, state.free)
      requires at == Offset(b, blockSize) && at + blockSize <= arena.Length && b !in state.free && freeListHead < SIZE_T
      modifies this`freeListHead, this`usedCount, this`state, arena
      ensures state == PoolSpec.Free(old(state), b)
      ensures ArenaOk() && FieldsOk() && Links(arena[..], poolStart, blockSize, state.free)
      ensures SameOutside(old(arena[..]), arena[..], b, blockSize)
    {
      PutLink(at, b, state.free);
      freeListHead := poolStart + at;
      usedCount := (usedCount + SIZE_T - 1) % SIZE_T;
      state := PoolSpec.Free(state, b);
    }

    /** The store into the block. */
    method PutLink(at: nat, ghost b: nat, ghost free: seq<nat>)
      requires at == Offset(b, blockSize) && at + blockSize <= arena.Length && blockSize >= POINTER_SIZE && b !in free
      requires Links(arena[..], poolStart, blockSize, free) && freeListHead == Head(poolStart, blockSize, free) < SIZE_T
      modifies arena
      ensures Links(arena[..], poolStart, blockSize, [b] + free)
      ensures SameOutside(old(arena[..]), arena[..], b, blockSize)
    {
      ghost var mem := arena[..];
      PointerRoundTrip(freeListHead);
      StoreLink(at, ToBytes(freeListHead, POINTER_SIZE));
      assert arena[..][at..at + POINTER_SIZE] == arena[at..at + POINTER_SIZE];
      LinksPush(mem, arena[..], poolStart, blockSize, free, b);
    }

    lemma HeadFits()
      requires Valid()
      ensures freeListHead < SIZE_T
    {
    }

    /** `node->next = ...` */
    method StoreLink(at: nat, bytes: seq<Byte>)
      requires |bytes| == POINTER_SIZE && at + POINTER_SIZE <= arena.Length
      modifies arena
      ensures arena[at..at + POINTER_SIZE] == bytes
      ensures forall k :: 0 <= k < arena.Length && !(at <= k < at + POINTER_SIZE) ==> arena[k] == old(arena[k])
    {
      for i := 0 to POINTER_SIZE
        invariant arena[at..at + i] == bytes[..i]
        invariant forall k :: 0 <= k < arena.Length && !(at <= k < at + POINTER_SIZE) ==> arena[k] == old(arena[k])
      {
        arena[at + i] := bytes[i];
      }
    }

    /** A client writes into a block it holds: the pool does not notice. */
    method ClientWrite(ghost b: nat, at: nat, value: Byte)
      requires Valid() && b in state.live && Offset(b, blockSize) <= at < Offset(b, blockSize) + blockSize
      requires at < arena.Length
      modifies arena
      ensures Valid() && arena[..] == old(arena[..])[at := value]
    {
      ghost var mem := arena[..];
      arena[at] := value;
      LiveBlock(state, b);
      LinksKept(mem, arena[..], poolStart, blockSize, state.free, b);
    }
  }

  /** Block sizes are at least the size of a pointer. */
  function RoundedUp(blockSize: nat): (size: nat)
    ensures size >= blockSize && size >= POINTER_SIZE && (size == blockSize || size == POINTER_SIZE)
  {
    if blockSize < POINTER_SIZE then POINTER_SIZE else blockSize
  }

  /** `pool_init`, with the outcomes of its two calls of `malloc`: null unless both yield memory. */
  method PoolInit(blockSize: nat, numBlocks: nat, gotPool: bool, start: nat) returns (pool: Pool?)
    requires blockSize < SIZE_T && numBlocks < SIZE_T
    requires start + (RoundedUp(blockSize) * numBlocks) % SIZE_T < SIZE_T
    ensures pool == null <==> !gotPool || start == NULL
    ensures pool != null ==> fresh(pool) && pool.state == Init(numBlocks)
                             && (pool.Valid() <==> RoundedUp(blockSize) * numBlocks < SIZE_T)
  {
    if !gotPool {
      return null;
    }
    if start == NULL {
      return null;
    }
    pool := new Pool(blockSize, numBlocks, start);
  }
}
