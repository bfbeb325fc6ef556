/**
 `SPSCQueue` of ring_buffer.h as an object: the buffer is an array written in place and the
 indices and thread registers are fields. Each method is one atomic action of one thread, and
 its effect is the step of the same name in SpscProtocol.
 */
module SpscQueue {
  import opened Basics
  import opened RingIndex
  import opened SpscProtocol

  class Queue<T(0)> {
    const buffer: array<T>
    var writeIdx: nat
    var readIdx: nat
    var commitIdx: nat
    // Thread-local registers
    var producers: seq<Producer<T>>
    var consumer: Consumer<T>
    // History of the run
    ghost var accepted: seq<seq<T>>
    ghost var pending: seq<nat>
    ghost var output: seq<T>

    ghost function View(): State<T>
      reads this, buffer
    {
      State(buffer[..], writeIdx, readIdx, commitIdx, producers, consumer, accepted, pending, output)
    }

    ghost predicate Valid()
      reads this, buffer
    {
      Inv(View())
    }

    constructor (capacity: nat, producerCount: nat)
      requires IsPowerOfTwo(capacity)
      ensures Valid() && Init(View()) && fresh(buffer)
      ensures buffer.Length == capacity && |producers| == producerCount
    {
      buffer := new T[capacity];
      writeIdx, readIdx, commitIdx := 0, 0, 0;
      producers, consumer := seq(producerCount, _ => Idle), Resting;
      accepted, pending, output := [], [], [];
      new;
      InitInv(View());
    }

    /** The slot of a position, by the mask the source uses. */
    function SlotOf(position: nat): (slot: nat)
      requires IsPowerOfTwo(buffer.Length)
      ensures slot == Slot(position, buffer.Length) && slot < buffer.Length
    {
      MaskIsRemainder(position, buffer.Length);
      SlotIsRemainder(position, buffer.Length);
      BitAnd(position, buffer.Length - 1)
    }

    /** `write_idx_.load()` at the start of an `enqueue_bulk(items, |items|)`. */
    method LoadWriteIdx(p: nat, items: seq<T>)
      requires Valid() && CanLoadWrite(View(), p)
      modifies this`producers
      ensures Valid() && View() == LoadWrite(old(View()), p, items)
    {
      LoadWriteInv(View(), p, items);
      producers := producers[p := LoadedWrite(items, |items|, writeIdx)];
    }

    /** `read_idx_.load()`, the shrinking of `count`, and the early return of 0. */
    method LoadReadIdx(p: nat) returns (gaveUp: bool)
      requires Valid() && CanLoadRead(View(), p)
      modifies this`producers
      ensures Valid() && View() == LoadRead(old(View()), p)
      ensures |producers| == |old(producers)| && (gaveUp <==> producers[p].Idle?)
    {
      LoadReadInv(View(), p);
      var q := producers[p];
      var available := buffer.Length - (q.w - readIdx);
      var count: int := q.count;
      if count > available { count := available; }
      gaveUp := count <= 0;
      producers := producers[p := if gaveUp then Idle else Reserving(q.items, count, q.w)];
    }

    /** `write_idx_.compare_exchange_weak(write_idx, write_idx + count)`. */
    method CompareExchangeWrite(p: nat, spurious: bool) returns (reserved: bool)
      requires Valid() && CanExchange(View(), p)
      modifies this
      ensures Valid()
      ensures reserved <==> !spurious && old(writeIdx) == old(producers[p].w)
      ensures View() == if reserved then Exchange(old(View()), p) else FailExchange(old(View()), p)
    {
      var q := producers[p];
      reserved := !spurious && writeIdx == q.w;
      if reserved {
        ExchangeInv(View(), p);
        producers := producers[p := Filling(q.items, q.count, q.w, 0)];
        writeIdx := q.w + q.count;
        accepted := accepted + [q.items[..q.count]];
        pending := pending + [p];
      } else {
        FailExchangeInv(View(), p);
        producers := producers[p := LoadedWrite(q.items, q.count, writeIdx)];
      }
    }

    /** `buffer_[(write_idx + i) & (Capacity - 1)] = items[i]`. */
    method StoreItem(p: nat)
      requires IsPowerOfTwo(buffer.Length)
      requires Valid() && CanWriteSlot(View(), p)
      modifies this`producers, buffer
      ensures Valid() && View() == WriteSlot(old(View()), p)
    {
      WriteSlotInv(View(), p);
      var q := producers[p];
      buffer[SlotOf(q.start + q.filled)] := q.items[q.filled];
      producers := producers[p := Filling(q.items, q.count, q.start, q.filled + 1)];
    }

    /** One test of the spin loop on `commit_idx_`. */
    method TestCommitIdx(p: nat) returns (turn: bool)
      requires Valid() && p < |producers| && producers[p].Filling? && producers[p].filled == producers[p].count
      modifies this
      ensures Valid()
      ensures turn <==> CanLeaveSpin(old(View()), p)
      ensures View() == if turn then LeaveSpin(old(View()), p) else old(View())
    {
      var q := producers[p];
      turn := commitIdx == q.start;
      if turn {
        LeaveSpinInv(View(), p);
        producers := producers[p := Committing(q.items, q.count, q.start)];
      }
    }

    /** `commit_idx_.store(write_idx + count)` and the return of `count`. */
    method StoreCommitIdx(p: nat) returns (count: nat)
      requires Valid() && CanCommit(View(), p)
      modifies this
      ensures Valid() && View() == Commit(old(View()), p)
      ensures count == commitIdx - old(commitIdx) > 0
    {
      CommitInv(View(), p);
      var q := producers[p];
      assert RegistersOk(View(), q);
      count := q.count;
      commitIdx := q.start + q.count;
      producers := producers[p := Idle];
      pending := pending[1..];
    }

    /** `read_idx_.load()` at the start of a `dequeue_bulk(out, want)`. */
    method ConsumerLoadReadIdx(want: nat)
      requires Valid() && consumer.Resting?
      modifies this
      ensures Valid() && View() == ConsumerLoadRead(old(View()), want)
    {
      ConsumerInv(View(), ConsumerLoadRead(View(), want));
      consumer := LoadedRead(want, readIdx);
    }

    /** `commit_idx_.load()`, the choice of `actual`, and the early return of 0. */
    method ConsumerLoadCommitIdx()
      requires Valid() && consumer.LoadedRead?
      modifies this
      ensures Valid() && View() == ConsumerLoadCommit(old(View()))
    {
      ConsumerInv(View(), ConsumerLoadCommit(View()));
      var available := commitIdx - consumer.r;
      var actual := if consumer.want <= available then consumer.want else available;
      consumer := if actual <= 0 then Resting else Copying(consumer.r, actual, []);
    }

    /** `out[i] = buffer_[(read_idx + i) & (Capacity - 1)]`. */
    method CopyItem()
      requires IsPowerOfTwo(buffer.Length)
      requires Valid() && CanCopy(View())
      modifies this
      ensures Valid() && View() == CopySlot(old(View()))
    {
      CopySlotInv(View());
      var item := buffer[SlotOf(consumer.r + |consumer.out|)];
      consumer := Copying(consumer.r, consumer.actual, consumer.out + [item]);
    }

    /** `read_idx_.compare_exchange_weak(expected, read_idx + actual)`: with one consumer it can
        only fail spuriously. The items handed over are the next ones of the log. */
    method CompareExchangeRead(spurious: bool) returns (result: seq<T>)
      requires Valid() && consumer.Copying? && |consumer.out| == consumer.actual
      modifies this
      ensures Valid()
      ensures View() == if spurious then old(View()) else Release(old(View()))
      ensures !spurious ==> result == Flatten(accepted)[old(readIdx)..readIdx] && readIdx > old(readIdx)
      ensures spurious ==> result == []
    {
      result := [];
      if !spurious && readIdx == consumer.r {
        ConsumerInv(View(), Release(View()));
        result := consumer.out;
        readIdx := consumer.r + consumer.actual;
        output := output + consumer.out;
        consumer := Resting;
      }
    }

    /** `enqueue_bulk` run without interruption while no batch is outstanding: it accepts as many
        items as there is room for, and they are readable when it returns. */
    method EnqueueBulk(p: nat, items: seq<T>) returns (count: nat)
      requires IsPowerOfTwo(buffer.Length)
      requires Valid() && CanLoadWrite(View(), p) && pending == []
      modifies this, buffer
      ensures Valid() && pending == [] && |producers| == |old(producers)| && producers[p].Idle?
      ensures count == Min(|items|, buffer.Length - (old(writeIdx) - readIdx))
      ensures readIdx == old(readIdx) && consumer == old(consumer) && output == old(output)
      ensures commitIdx == writeIdx == old(writeIdx) + count
      ensures Flatten(accepted) == Flatten(old(accepted)) + items[..count]
    {
      count := ReserveBatch(p, items);
      FlattenSnoc(old(accepted), items[..count]);
      if count > 0 {
        PublishBatch(p);
      }
    }

    /** The first half of `enqueue_bulk`, up to the successful exchange. */
    method ReserveBatch(p: nat, items: seq<T>) returns (count: nat)
      requires Valid() && CanLoadWrite(View(), p)
      modifies this
      ensures Valid() && count == Min(|items|, buffer.Length - (old(writeIdx) - readIdx))
      ensures readIdx == old(readIdx) && commitIdx == old(commitIdx)
      ensures consumer == old(consumer) && output == old(output)
      ensures writeIdx == old(writeIdx) + count
      ensures count == 0 ==>
                producers == old(producers)[p := Idle] && accepted == old(accepted) && pending == old(pending)
      ensures count > 0 ==>
                producers == old(producers)[p := Filling(items, count, old(writeIdx), 0)]
                && accepted == old(accepted) + [items[..count]] && pending == old(pending) + [p]
    {
      var gaveUp := LoadIndices(p, items);
      if gaveUp {
        return 0;
      }
      count := producers[p].count;
      var reserved := CompareExchangeWrite(p, false);
    }

    /** The two loads of `enqueue_bulk`. */
    method LoadIndices(p: nat, items: seq<T>) returns (gaveUp: bool)
      requires Valid() && CanLoadWrite(View(), p)
      modifies this`producers
      ensures Valid()
      ensures var count := Min(|items|, buffer.Length - (writeIdx - readIdx));
              && (gaveUp <==> count == 0)
              && producers == old(producers)[p := if gaveUp then Idle else Reserving(items, count, writeIdx)]
    {
      LoadWriteIdx(p, items);
      assert RegistersOk(View(), producers[p]);
      gaveUp := LoadReadIdx(p);
    }

    /** The second half of `enqueue_bulk`, for a batch that is the only outstanding one. */
    method PublishBatch(p: nat)
      requires IsPowerOfTwo(buffer.Length)
      requires Valid() && pending == [p] && p < |producers| && producers[p].Filling?
      requires producers[p].filled == 0 <= producers[p].count <= |producers[p].items|
      modifies this, buffer
      ensures Valid() && pending == [] && producers == old(producers)[p := Idle]
      ensures readIdx == old(readIdx) && consumer == old(consumer) && output == old(output)
      ensures commitIdx == writeIdx == old(writeIdx) && accepted == old(accepted)
    {
      FillBatch(p);
      OldestStartsAtCommit(View());
      var turn := TestCommitIdx(p);
      var count := StoreCommitIdx(p);
      NothingOutstanding(View());
    }

    /** The loop that fills a reserved batch. */
    method FillBatch(p: nat)
      requires IsPowerOfTwo(buffer.Length)
      requires Valid() && p < |producers| && producers[p].Filling?
      requires producers[p].filled == 0 <= producers[p].count <= |producers[p].items|
      modifies this`producers, buffer
      ensures Valid() && |producers| == |old(producers)|
      ensures producers == old(producers)[p := old(producers[p]).(filled := old(producers[p]).count)]
    {
      var q := producers[p];
      var i := 0;
      while i < q.count
        invariant 0 <= i <= q.count && Valid() && |producers| == |old(producers)|
        invariant producers == old(producers)[p := q.(filled := i)]
      {
        StoreItem(p);
        i := i + 1;
      }
    }

    /** `dequeue_bulk` run without interruption: it hands over the next items of the log. */
    method DequeueBulk(want: nat) returns (result: seq<T>)
      requires IsPowerOfTwo(buffer.Length)
      requires Valid() && consumer.Resting?
      modifies this
      ensures Valid() && consumer.Resting?
      ensures producers == old(producers) && pending == old(pending) && accepted == old(accepted)
      ensures writeIdx == old(writeIdx) && commitIdx == old(commitIdx)
      ensures |result| == Min(want, old(commitIdx - readIdx))
      ensures readIdx == old(readIdx) + |result|
      ensures result == Flatten(accepted)[old(readIdx)..readIdx]
    {
      ConsumerLoadReadIdx(want);
      ConsumerLoadCommitIdx();
      if consumer.Resting? {
        return [];
      }
      var r, actual := consumer.r, consumer.actual;
      while |consumer.out| < consumer.actual
        invariant Valid() && consumer.Copying? && consumer.r == r && consumer.actual == actual
        invariant readIdx == r && actual == Min(want, commitIdx - r)
        invariant |consumer.out| <= actual
        invariant producers == old(producers) && pending == old(pending) && accepted == old(accepted)
        invariant writeIdx == old(writeIdx) && commitIdx == old(commitIdx) && readIdx == old(readIdx)
        decreases actual - |consumer.out|
      {
        CopyItem();
      }
      result := CompareExchangeRead(false);
    }
  }
}
