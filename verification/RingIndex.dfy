/**
 Positions and slots of the ring buffer in ring_buffer.h: an ever-growing position is
 mapped to a slot by `position & (Capacity - 1)`, where the class demands
 `Capacity > 0 && (Capacity & (Capacity - 1)) == 0`.
 */
module RingIndex {

  /** The slot of a position, by casting out the capacity. */
  function Slot(position: nat, capacity: nat): (slot: nat)
    requires capacity > 0
    ensures slot < capacity
  {
    if position < capacity then position else Slot(position - capacity, capacity)
  }

  lemma {:induction false} SlotIsRemainder(position: nat, capacity: nat)
    requires capacity > 0
    ensures Slot(position, capacity) == position % capacity
  {
    if position >= capacity {
      SlotIsRemainder(position - capacity, capacity);
      assert position == capacity + (position - capacity);
      RemainderPeriod(position - capacity, capacity);
    }
  }

  lemma RemainderPeriod(x: nat, d: nat)
    requires d > 0
    ensures (d + x) % d == x % d
  {
    var q := x / d;
    assert d + x == d * (q + 1) + x % d;
    RemainderUnique(d + x, d, q + 1, x % d);
  }

  /** Two positions less than a capacity apart never share a slot. */
  lemma {:induction false} SlotsDiffer(a: nat, b: nat, capacity: nat)
    requires a < b < a + capacity
    ensures Slot(a, capacity) != Slot(b, capacity)
  {
    if a >= capacity {
      SlotsDiffer(a - capacity, b - capacity, capacity);
    }
  }

  /** Bitwise and of two unsigned numbers. */
  function BitAnd(x: nat, y: nat): nat {
    if x == 0 || y == 0 then 0
    else 2 * BitAnd(x / 2, y / 2) + (if x % 2 == 1 && y % 2 == 1 then 1 else 0)
  }

  /** The compile-time check on the capacity. */
  predicate IsPowerOfTwo(capacity: nat) {
    capacity > 0 && BitAnd(capacity, capacity - 1) == 0
  }

  /** Masking with `Capacity - 1` is the remainder, using only the compile-time check. */
  lemma {:induction false} MaskIsRemainder(x: nat, capacity: nat)
    requires IsPowerOfTwo(capacity)
    ensures BitAnd(x, capacity - 1) == x % capacity
  {
    if capacity % 2 == 1 {
      OddPowerIsOne(capacity);
    } else {
      var half := capacity / 2;
      HalfIsPowerOfTwo(capacity);
      MaskIsRemainder(x / 2, half);
      assert (capacity - 1) / 2 == half - 1 && (capacity - 1) % 2 == 1;
      RemainderOfDouble(x, half);
      if x != 0 {
        assert BitAnd(x, capacity - 1) == 2 * BitAnd(x / 2, half - 1) + x % 2;
      }
    }
  }

  lemma {:induction false} BitAndSelf(x: nat)
    ensures BitAnd(x, x) == x
  {
    if x != 0 { BitAndSelf(x / 2); }
  }

  lemma OddPowerIsOne(capacity: nat)
    requires IsPowerOfTwo(capacity) && capacity % 2 == 1
    ensures capacity == 1
  {
    if capacity > 1 {
      assert (capacity - 1) / 2 == capacity / 2 && (capacity - 1) % 2 == 0;
      BitAndSelf(capacity / 2);
    }
  }

  lemma HalfIsPowerOfTwo(capacity: nat)
    requires IsPowerOfTwo(capacity) && capacity % 2 == 0
    ensures IsPowerOfTwo(capacity / 2)
  {
    assert (capacity - 1) / 2 == capacity / 2 - 1;
    assert BitAnd(capacity, capacity - 1) == 2 * BitAnd(capacity / 2, capacity / 2 - 1);
  }

  lemma RemainderOfDouble(x: nat, half: nat)
    requires half > 0
    ensures x % (2 * half) == 2 * ((x / 2) % half) + x % 2
  {
    var y := x / 2;
    var q, r := y / half, y % half;
    assert x == (2 * half) * q + (2 * r + x % 2);
    RemainderUnique(x, 2 * half, q, 2 * r + x % 2);
  }

  lemma RemainderUnique(x: nat, d: nat, q: nat, r: nat)
    requires r < d && x == d * q + r
    ensures x % d == r
  {
    var k := x / d - q;
    assert d * k == r - x % d;
    MultipleBound(d, k);
  }

  lemma MultipleBound(d: int, k: int)
    requires d > 0
    ensures k > 0 ==> d * k >= d
    ensures k < 0 ==> d * k <= -d
  {
  }
}
