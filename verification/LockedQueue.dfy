/**
 `MPMCLockedQueue` of ring_buffer.h: every operation holds the mutex, and the read and write
 positions are 64-bit unsigned numbers that wrap.
 */
module LockedQueue {
  import opened Basics
  import opened RingIndex

  const WORD := 0x1_0000_0000_0000_0000

  type Word = x: int | 0 <= x < WORD

  /** 64-bit unsigned addition and subtraction. */
  function WrapAdd(a: Word, b: Word): Word { if a + b < WORD then a + b else a + b - WORD }
  function WrapSub(a: Word, b: Word): Word { if a >= b then a - b else a - b + WORD }

  /** 2^n */
  function Power(n: nat): nat { if n == 0 then 1 else 2 * Power(n - 1) }

  lemma {:induction false} PowerAdds(a: nat, b: nat)
    ensures Power(a + b) == Power(a) * Power(b)
  {
    if a != 0 {
      PowerAdds(a - 1, b);
      assert 2 * Power(a - 1) * Power(b) == 2 * (Power(a - 1) * Power(b));
    }
  }

  lemma WordIsPower()
    ensures WORD == Power(64)
  {
    assert Power(1) == 2;
    PowerAdds(1, 1);
    PowerAdds(2, 2);
    assert Power(4) == 0x10;
    PowerAdds(4, 4);
    assert Power(8) == 0x100;
    PowerAdds(8, 8);
    assert Power(16) == 0x1_0000;
    PowerAdds(16, 16);
    assert Power(32) == 0x1_0000_0000;
    PowerAdds(32, 32);
  }

  /** A capacity that passes the compile-time check and fits in the index type divides the index range. */
  lemma {:induction false} CapacityDividesPower(capacity: nat, n: nat) returns (k: nat)
    requires IsPowerOfTwo(capacity) && capacity <= Power(n)
    ensures Power(n) == k * capacity
  {
    if capacity % 2 == 1 {
      OddPowerIsOne(capacity);
      k := Power(n);
    } else {
      HalfIsPowerOfTwo(capacity);
      k := CapacityDividesPower(capacity / 2, n - 1);
      assert k * capacity == 2 * (k * (capacity / 2));
    }
  }

  lemma {:induction false} SlotPeriodic(x: nat, k: nat, capacity: nat)
    requires capacity > 0
    ensures Slot(x + k * capacity, capacity) == Slot(x, capacity)
  {
    if k != 0 {
      assert k * capacity == (k - 1) * capacity + capacity;
      SlotPeriodic(x, k - 1, capacity);
      assert x + (k - 1) * capacity >= 0 by { Product(k - 1, capacity); }
    }
  }

  lemma Product(a: nat, b: nat)
    ensures a * b >= 0
  {
  }

  /** Wrapping around the index range does not change the slot: an overflow is harmless exactly
      because the capacity is a power of two. */
  lemma SlotAfterWrap(x: nat, capacity: nat)
    requires IsPowerOfTwo(capacity) && capacity < WORD
    ensures Slot(x + WORD, capacity) == Slot(x, capacity)
  {
    WordIsPower();
    var k := CapacityDividesPower(capacity, 64);
    SlotPeriodic(x, k, capacity);
  }

  /** The mask applied to a wrapped sum picks the slot of the unwrapped sum. */
  lemma MaskedSlot(start: Word, i: Word, capacity: nat)
    requires IsPowerOfTwo(capacity) && capacity < WORD
    ensures BitAnd(WrapAdd(start, i), capacity - 1) == Slot(start + i, capacity)
  {
    MaskIsRemainder(WrapAdd(start, i), capacity);
    SlotIsRemainder(WrapAdd(start, i), capacity);
    if start + i >= WORD { SlotAfterWrap(start + i - WORD, capacity); }
  }

  /** The slots after a position only depend on the position modulo the index range. */
  lemma SlotOfWrapped(start: Word, n: Word, i: nat, capacity: nat)
    requires IsPowerOfTwo(capacity) && capacity < WORD
    ensures Slot(WrapAdd(start, n) + i, capacity) == Slot(start + n + i, capacity)
  {
    if start + n >= WORD { SlotAfterWrap(start + n - WORD + i, capacity); }
  }

  /** The slot written next is the one after the last item, whatever the indices have wrapped to. */
  lemma NextFreeSlot(read: Word, write: Word, i: nat, capacity: nat)
    requires IsPowerOfTwo(capacity) && capacity < WORD && WrapSub(write, read) + i < capacity
    ensures BitAnd(WrapAdd(write, i), capacity - 1) == Slot(read + WrapSub(write, read) + i, capacity)
  {
    MaskedSlot(write, i, capacity);
    SlotOfWrapped(read, WrapSub(write, read), i, capacity);
  }

  /** The items between two positions. */
  function Window<T>(buffer: seq<T>, read: Word, length: nat): (items: seq<T>)
    requires |buffer| > 0
    ensures |items| == length
    ensures forall i :: 0 <= i < length ==> items[i] == buffer[Slot(read + i, |buffer|)]
  {
    seq(length, i requires 0 <= i < length => buffer[Slot(read + i, |buffer|)])
  }

  /** Storing one more item in the next free slot. */
  lemma WindowStore<T>(buffer: seq<T>, read: Word, length: nat, item: T)
    requires length < |buffer|
    ensures Window(buffer[Slot(read + length, |buffer|) := item], read, length + 1)
            == Window(buffer, read, length) + [item]
  {
    var after := buffer[Slot(read + length, |buffer|) := item];
    forall k | 0 <= k < length ensures Window(after, read, length + 1)[k] == Window(buffer, read, length)[k] {
      SlotsDiffer(read + k, read + length, |buffer|);
    }
  }

  /** Advancing the read position drops the oldest items. */
  lemma WindowDrop<T>(buffer: seq<T>, read: Word, length: nat, n: Word)
    requires n <= length && IsPowerOfTwo(|buffer|) && |buffer| < WORD
    ensures Window(buffer, WrapAdd(read, n), length - n) == Window(buffer, read, length)[n..]
  {
    var after, rest := Window(buffer, WrapAdd(read, n), length - n), Window(buffer, read, length)[n..];
    forall k | 0 <= k < length - n ensures after[k] == rest[k] {
      SlotOfWrapped(read, n, k, |buffer|);
    }
  }

  class Queue<T(0)> {
    const buffer: array<T>
    var writeIdx: Word
    var readIdx: Word

    ghost predicate Valid()
      reads this
    {
      IsPowerOfTwo(buffer.Length) && buffer.Length < WORD && WrapSub(writeIdx, readIdx) <= buffer.Length
    }

    /** The queue as a sequence, oldest item first: the unsigned difference of the positions is its length. */
    ghost function Items(): (items: seq<T>)
      requires Valid()
      reads this, buffer
      ensures |items| == WrapSub(writeIdx, readIdx) <= buffer.Length
    {
      Window(buffer[..], readIdx, WrapSub(writeIdx, readIdx))
    }

    constructor (capacity: nat)
      requires IsPowerOfTwo(capacity) && capacity < WORD
      ensures Valid() && fresh(buffer) && buffer.Length == capacity && Items() == []
    {
      buffer := new T[capacity];
      writeIdx, readIdx := 0, 0;
    }

    /** Accepts as many of the items as there is room for, in order. */
    method EnqueueBulk(items: seq<T>) returns (count: nat)
      requires Valid() && |items| < WORD
      modifies this`writeIdx, buffer
      ensures Valid()
      ensures count == if |items| <= buffer.Length - |old(Items())| then |items| else buffer.Length - |old(Items())|
      ensures Items() == old(Items()) + items[..count]
    {
      var available := buffer.Length - WrapSub(writeIdx, readIdx);
      count := |items|;
      if count > available { count := available; }
      if count == 0 { return; }
      StoreItems(items[..count]);
      writeIdx := WrapAdd(writeIdx, count);
    }

    /** The loop that fills the slots behind `write_idx_`, before the index moves. */
    method StoreItems(items: seq<T>)
      requires Valid() && WrapSub(writeIdx, readIdx) + |items| <= buffer.Length
      modifies buffer
      ensures Window(buffer[..], readIdx, WrapSub(writeIdx, readIdx) + |items|) == old(Items()) + items
    {
      ghost var length, before := WrapSub(writeIdx, readIdx), Items();
      for i := 0 to |items|
        invariant Window(buffer[..], readIdx, length + i) == before + items[..i]
      {
        StoreItem(items[i], i);
        assert before + items[..i] + [items[i]] == before + items[..i + 1];
      }
      assert items[..|items|] == items;
    }

    /** One item, when `i` others have been stored already. */
    method StoreItem(item: T, i: Word)
      requires Valid() && WrapSub(writeIdx, readIdx) + i < buffer.Length
      modifies buffer
      ensures Window(buffer[..], readIdx, WrapSub(writeIdx, readIdx) + i + 1) ==
              old(Window(buffer[..], readIdx, WrapSub(writeIdx, readIdx) + i)) + [item]
    {
      ghost var length, before := WrapSub(writeIdx, readIdx), buffer[..];
      NextFreeSlot(readIdx, writeIdx, i, buffer.Length);
      WindowStore(before, readIdx, length + i, item);
      buffer[BitAnd(WrapAdd(writeIdx, i), buffer.Length - 1)] := item;
      assert buffer[..] == before[Slot(readIdx + length + i, buffer.Length) := item];
    }

    /** Hands over the oldest items, in order, and leaves the rest of `out` alone. */
    method DequeueBulk(out: array<T>, want: Word) returns (count: nat)
      requires Valid() && out != buffer && want <= out.Length
      modifies this`readIdx, out
      ensures Valid()
      ensures count == if want <= |old(Items())| then want else |old(Items())|
      ensures out[..] == old(Items())[..count] + old(out[..])[count..]
      ensures Items() == old(Items())[count..]
    {
      var available := WrapSub(writeIdx, readIdx);
      count := want;
      if count > available { count := available; }
      if count == 0 { return; }
      CopyOut(out, count);
      WindowDrop(buffer[..], readIdx, available, count);
      readIdx := WrapAdd(readIdx, count);
    }

    /** The loop that copies the oldest items, before the index moves. */
    method CopyOut(out: array<T>, count: Word)
      requires Valid() && out != buffer && count <= out.Length && count <= WrapSub(writeIdx, readIdx)
      modifies out
      ensures out[..] == Items()[..count] + old(out[..])[count..] && Items() == old(Items())
    {
      ghost var before, had := Items(), out[..];
      for i := 0 to count
        invariant buffer[..] == old(buffer[..])
        invariant forall k :: 0 <= k < i ==> out[k] == before[k]
        invariant forall k :: i <= k < out.Length ==> out[k] == had[k]
      {
        MaskedSlot(readIdx, i, buffer.Length);
        out[i] := buffer[BitAnd(WrapAdd(readIdx, i), buffer.Length - 1)];
      }
      assert out[..] == before[..count] + had[count..];
    }
  }

  // ---- The bounded FIFO that the two operations implement, over whole runs

  datatype Call<T> = Enqueue(items: seq<T>) | Dequeue(want: nat)

  /** The queue, everything accepted and everything handed over after a run of calls. */
  function Run<T>(queue: seq<T>, capacity: nat, calls: seq<Call<T>>): (r: (seq<T>, seq<T>, seq<T>))
    requires |queue| <= capacity
    ensures |r.0| <= capacity
    decreases |calls|
  {
    if calls == [] then (queue, [], [])
    else match calls[0]
      case Enqueue(items) =>
        var n := Min(|items|, capacity - |queue|);
        var rest := Run(queue + items[..n], capacity, calls[1..]);
        (rest.0, items[..n] + rest.1, rest.2)
      case Dequeue(want) =>
        var n := Min(want, |queue|);
        var rest := Run(queue[n..], capacity, calls[1..]);
        (rest.0, rest.1, queue[..n] + rest.2)
  }

  /** A run of calls on a real queue does what `Run` says. */
  method Execute<T(0)>(q: Queue<T>, calls: seq<Call<T>>) returns (accepted: seq<T>, delivered: seq<T>)
    requires q.Valid() && forall c :: c in calls ==> if c.Enqueue? then |c.items| < WORD else c.want < WORD
    modifies q, q.buffer
    ensures q.Valid() && (q.Items(), accepted, delivered) == Run(old(q.Items()), q.buffer.Length, calls)
    ensures delivered + q.Items() == old(q.Items()) + accepted
  {
    accepted, delivered := [], [];
    ghost var before := q.Items();
    NoneDone(before, q.buffer.Length, calls);
    for i := 0 to |calls|
      invariant q.Valid() && Done(before, q.buffer.Length, calls, i, q.Items(), accepted, delivered)
    {
      ghost var items := q.Items();
      match calls[i] {
        case Enqueue(batch) =>
          var n := q.EnqueueBulk(batch);
          EnqueueDone(before, q.buffer.Length, calls, i, items, accepted, delivered);
          accepted := accepted + batch[..n];
        case Dequeue(want) =>
          var out := new T[want];
          var n := q.DequeueBulk(out, want);
          DequeueDone(before, q.buffer.Length, calls, i, items, accepted, delivered);
          delivered := delivered + out[..n];
      }
    }
    AllDone(before, q.buffer.Length, calls, q.Items(), accepted, delivered);
    FirstInFirstOut(before, q.buffer.Length, calls);
  }

  lemma NoneDone<T>(before: seq<T>, capacity: nat, calls: seq<Call<T>>)
    requires |before| <= capacity
    ensures Done(before, capacity, calls, 0, before, [], [])
  {
    assert calls[0..] == calls;
    var r := Run(before, capacity, calls);
    assert [] + r.1 == r.1 && [] + r.2 == r.2;
  }

  lemma AllDone<T>(before: seq<T>, capacity: nat, calls: seq<Call<T>>,
                   queue: seq<T>, accepted: seq<T>, delivered: seq<T>)
    requires Done(before, capacity, calls, |calls|, queue, accepted, delivered)
    ensures Run(before, capacity, calls) == (queue, accepted, delivered)
  {
    assert calls[|calls|..] == [] && accepted + [] == accepted && delivered + [] == delivered;
  }

  /** The first `i` calls are done. */
  ghost predicate Done<T>(before: seq<T>, capacity: nat, calls: seq<Call<T>>, i: nat,
                          queue: seq<T>, accepted: seq<T>, delivered: seq<T>) {
    && |before| <= capacity && |queue| <= capacity && i <= |calls|
    && var rest := Run(queue, capacity, calls[i..]);
       Run(before, capacity, calls) == (rest.0, accepted + rest.1, delivered + rest.2)
  }

  lemma EnqueueDone<T>(before: seq<T>, capacity: nat, calls: seq<Call<T>>, i: nat,
                       queue: seq<T>, accepted: seq<T>, delivered: seq<T>)
    requires Done(before, capacity, calls, i, queue, accepted, delivered) && i < |calls| && calls[i].Enqueue?
    ensures var n := Min(|calls[i].items|, capacity - |queue|);
            Done(before, capacity, calls, i + 1, queue + calls[i].items[..n], accepted + calls[i].items[..n], delivered)
  {
    var taken := calls[i].items[..Min(|calls[i].items|, capacity - |queue|)];
    assert calls[i..][0] == calls[i] && calls[i..][1..] == calls[i + 1..];
    var rest := Run(queue + taken, capacity, calls[i + 1..]);
    assert accepted + (taken + rest.1) == (accepted + taken) + rest.1;
  }

  lemma DequeueDone<T>(before: seq<T>, capacity: nat, calls: seq<Call<T>>, i: nat,
                       queue: seq<T>, accepted: seq<T>, delivered: seq<T>)
    requires Done(before, capacity, calls, i, queue, accepted, delivered) && i < |calls| && calls[i].Dequeue?
    ensures var n := Min(calls[i].want, |queue|);
            Done(before, capacity, calls, i + 1, queue[n..], accepted, delivered + queue[..n])
  {
    var n := Min(calls[i].want, |queue|);
    assert calls[i..][0] == calls[i] && calls[i..][1..] == calls[i + 1..];
    var rest := Run(queue[n..], capacity, calls[i + 1..]);
    assert delivered + (queue[..n] + rest.2) == (delivered + queue[..n]) + rest.2;
  }

  /** First in, first out: over any run of calls by any threads, what was handed over followed by what
      is left is what was there followed by what was accepted. */
  lemma {:induction false} FirstInFirstOut<T>(queue: seq<T>, capacity: nat, calls: seq<Call<T>>)
    requires |queue| <= capacity
    ensures var r := Run(queue, capacity, calls); r.2 + r.0 == queue + r.1
    decreases |calls|
  {
    if calls != [] {
      match calls[0]
      case Enqueue(items) =>
        var n := Min(|items|, capacity - |queue|);
        FirstInFirstOut(queue + items[..n], capacity, calls[1..]);
        var rest := Run(queue + items[..n], capacity, calls[1..]);
        assert (queue + items[..n]) + rest.1 == queue + (items[..n] + rest.1);
      case Dequeue(want) =>
        var n := Min(want, |queue|);
        FirstInFirstOut(queue[n..], capacity, calls[1..]);
        var rest := Run(queue[n..], capacity, calls[1..]);
        assert (queue[..n] + rest.2) + rest.0 == queue[..n] + (rest.2 + rest.0);
        assert queue[..n] + (queue[n..] + rest.1) == queue + rest.1;
    }
  }
}
