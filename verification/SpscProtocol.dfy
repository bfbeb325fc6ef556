/**
 The lock-free queue of ring_buffer.h as a transition system: any number of
 producers, one consumer, one step per atomic load, compare-and-swap, slot write
 or slot copy. Memory is sequentially consistent and indices do not wrap.
 */
module SpscProtocol {
  import opened Basics
  import opened RingIndex

  /** The registers of one producer thread, by the point it has reached in `enqueue_bulk`. */
  datatype Producer<T> =
    | Idle
      // `write_idx` has been loaded (or refreshed by a failed exchange); `read_idx` comes next.
    | LoadedWrite(items: seq<T>, count: nat, w: nat)
      // `count` has been shrunk to the room seen; the exchange on `write_idx_` comes next.
    | Reserving(items: seq<T>, count: nat, w: nat)
      // The slots of [start, start + count) are reserved and `filled` of them are written.
    | Filling(items: seq<T>, count: nat, start: nat, filled: nat)
      // The spin loop has seen `commit_idx_ == start`; the commit store comes next.
    | Committing(items: seq<T>, count: nat, start: nat)

  /** The registers of the consumer thread, by the point it has reached in `dequeue_bulk`. */
  datatype Consumer<T> =
    | Resting
    | LoadedRead(want: nat, r: nat)
    | Copying(r: nat, actual: nat, out: seq<T>)

  /** Shared memory, thread registers, and the history of the run:
      `accepted` lists the batches in reservation order, `pending` the producers whose
      batch is reserved and not committed, and `output` everything dequeued so far. */
  datatype State<T> = State(
    buffer: seq<T>, write: nat, read: nat, commit: nat,
    producers: seq<Producer<T>>, consumer: Consumer<T>,
    accepted: seq<seq<T>>, pending: seq<nat>, output: seq<T>)

  // ---------------------------------------------------------------- steps

  function SetProducer<T>(s: State<T>, p: nat, v: Producer<T>): State<T>
    requires p < |s.producers|
  {
    s.(producers := s.producers[p := v])
  }

  predicate CanLoadWrite<T>(s: State<T>, p: nat) { p < |s.producers| && s.producers[p].Idle? }

  function LoadWrite<T>(s: State<T>, p: nat, items: seq<T>): State<T>
    requires CanLoadWrite(s, p)
  {
    SetProducer(s, p, LoadedWrite(items, |items|, s.write))
  }

  predicate CanLoadRead<T>(s: State<T>, p: nat) { p < |s.producers| && s.producers[p].LoadedWrite? }

  /** The unsigned expression `Capacity - (write_idx - read_idx)` equals this difference
      whenever the difference is not negative. */
  function LoadRead<T>(s: State<T>, p: nat): State<T>
    requires CanLoadRead(s, p)
  {
    var q := s.producers[p];
    var available := |s.buffer| - (q.w - s.read);
    var count := Min(q.count, available);
    SetProducer(s, p, if count <= 0 then Idle else Reserving(q.items, count, q.w))
  }

  predicate CanExchange<T>(s: State<T>, p: nat) {
    p < |s.producers| && s.producers[p].Reserving? && s.producers[p].count <= |s.producers[p].items|
  }

  /** `compare_exchange_weak` fails when the index has moved, and may fail spuriously. */
  function FailExchange<T>(s: State<T>, p: nat): State<T>
    requires CanExchange(s, p)
  {
    var q := s.producers[p];
    SetProducer(s, p, LoadedWrite(q.items, q.count, s.write))
  }

  function Exchange<T>(s: State<T>, p: nat): State<T>
    requires CanExchange(s, p) && s.write == s.producers[p].w
  {
    var q := s.producers[p];
    s.(producers := s.producers[p := Filling(q.items, q.count, q.w, 0)],
       write := q.w + q.count,
       accepted := s.accepted + [q.items[..q.count]],
       pending := s.pending + [p])
  }

  predicate CanWriteSlot<T>(s: State<T>, p: nat) {
    |s.buffer| > 0 && p < |s.producers| && s.producers[p].Filling?
    && s.producers[p].filled < s.producers[p].count <= |s.producers[p].items|
  }

  function WriteSlot<T>(s: State<T>, p: nat): State<T>
    requires CanWriteSlot(s, p)
  {
    var q := s.producers[p];
    s.(producers := s.producers[p := Filling(q.items, q.count, q.start, q.filled + 1)],
       buffer := s.buffer[Slot(q.start + q.filled, |s.buffer|) := q.items[q.filled]])
  }

  predicate CanLeaveSpin<T>(s: State<T>, p: nat) {
    p < |s.producers| && s.producers[p].Filling? && s.producers[p].filled == s.producers[p].count
    && s.commit == s.producers[p].start
  }

  function LeaveSpin<T>(s: State<T>, p: nat): State<T>
    requires CanLeaveSpin(s, p)
  {
    var q := s.producers[p];
    SetProducer(s, p, Committing(q.items, q.count, q.start))
  }

  predicate CanCommit<T>(s: State<T>, p: nat) {
    p < |s.producers| && s.producers[p].Committing? && s.pending != []
  }

  function Commit<T>(s: State<T>, p: nat): State<T>
    requires CanCommit(s, p)
  {
    var q := s.producers[p];
    s.(producers := s.producers[p := Idle], commit := q.start + q.count, pending := s.pending[1..])
  }

  function ConsumerLoadRead<T>(s: State<T>, want: nat): State<T>
    requires s.consumer.Resting?
  {
    s.(consumer := LoadedRead(want, s.read))
  }

  function ConsumerLoadCommit<T>(s: State<T>): State<T>
    requires s.consumer.LoadedRead?
  {
    var actual := Min(s.consumer.want, s.commit - s.consumer.r);
    s.(consumer := if actual <= 0 then Resting else Copying(s.consumer.r, actual, []))
  }

  predicate CanCopy<T>(s: State<T>) {
    |s.buffer| > 0 && s.consumer.Copying? && |s.consumer.out| < s.consumer.actual
  }

  function CopySlot<T>(s: State<T>): State<T>
    requires CanCopy(s)
  {
    var c := s.consumer;
    s.(consumer := Copying(c.r, c.actual, c.out + [s.buffer[Slot(c.r + |c.out|, |s.buffer|)]]))
  }

  predicate CanRelease<T>(s: State<T>) {
    s.consumer.Copying? && |s.consumer.out| == s.consumer.actual && s.read == s.consumer.r
  }

  function Release<T>(s: State<T>): State<T>
    requires CanRelease(s)
  {
    var c := s.consumer;
    s.(read := c.r + c.actual, consumer := Resting, output := s.output + c.out)
  }

  /** One step of the system. A spin that sees another index and a failed exchange of
      `read_idx_` change nothing and are not listed. */
  datatype Step<T> =
    | StepLoadWrite(p: nat, items: seq<T>)
    | StepLoadRead(p: nat)
    | StepFailExchange(p: nat)
    | StepExchange(p: nat)
    | StepWriteSlot(p: nat)
    | StepLeaveSpin(p: nat)
    | StepCommit(p: nat)
    | StepConsumerLoadRead(want: nat)
    | StepConsumerLoadCommit
    | StepCopySlot
    | StepRelease

  predicate Enabled<T>(s: State<T>, a: Step<T>) {
    match a
    case StepLoadWrite(p, _) => CanLoadWrite(s, p)
    case StepLoadRead(p) => CanLoadRead(s, p)
    case StepFailExchange(p) => CanExchange(s, p)
    case StepExchange(p) => CanExchange(s, p) && s.write == s.producers[p].w
    case StepWriteSlot(p) => CanWriteSlot(s, p)
    case StepLeaveSpin(p) => CanLeaveSpin(s, p)
    case StepCommit(p) => CanCommit(s, p)
    case StepConsumerLoadRead(_) => s.consumer.Resting?
    case StepConsumerLoadCommit => s.consumer.LoadedRead?
    case StepCopySlot => CanCopy(s)
    case StepRelease => CanRelease(s)
  }

  function Apply<T>(s: State<T>, a: Step<T>): State<T>
    requires Enabled(s, a)
  {
    match a
    case StepLoadWrite(p, items) => LoadWrite(s, p, items)
    case StepLoadRead(p) => LoadRead(s, p)
    case StepFailExchange(p) => FailExchange(s, p)
    case StepExchange(p) => Exchange(s, p)
    case StepWriteSlot(p) => WriteSlot(s, p)
    case StepLeaveSpin(p) => LeaveSpin(s, p)
    case StepCommit(p) => Commit(s, p)
    case StepConsumerLoadRead(want) => ConsumerLoadRead(s, want)
    case StepConsumerLoadCommit => ConsumerLoadCommit(s)
    case StepCopySlot => CopySlot(s)
    case StepRelease => Release(s)
  }

  /** A fresh queue: all indices zero, every thread outside the queue. */
  ghost predicate Init<T>(s: State<T>) {
    |s.buffer| > 0 && s.write == 0 && s.read == 0 && s.commit == 0
    && (forall p :: 0 <= p < |s.producers| ==> s.producers[p].Idle?)
    && s.consumer.Resting? && s.accepted == [] && s.pending == [] && s.output == []
  }

  /** `t` is reached from `s` by taking `steps` in order. */
  ghost predicate Reaches<T>(s: State<T>, steps: seq<Step<T>>, t: State<T>)
    decreases |steps|
  {
    if steps == [] then s == t
    else Enabled(s, steps[0]) && Reaches(Apply(s, steps[0]), steps[1..], t)
  }

  // ------------------------------------------------------------ invariant

  /** The accepted batches laid end to end. */
  function Flatten<T>(batches: seq<seq<T>>): seq<T> {
    if batches == [] then [] else Flatten(batches[..|batches|-1]) + batches[|batches|-1]
  }

  predicate Outstanding<T>(q: Producer<T>) { q.Filling? || q.Committing? }

  function Filled<T>(q: Producer<T>): nat
    requires Outstanding(q)
  {
    if q.Filling? then q.filled else q.count
  }

  function End<T>(q: Producer<T>): nat
    requires Outstanding(q)
  {
    q.start + q.count
  }

  ghost predicate Ordered<T>(s: State<T>) {
    |s.buffer| > 0 && s.read <= s.commit <= s.write <= s.read + |s.buffer|
  }

  /** What the registers of a producer are worth, however stale its loads are. */
  ghost predicate RegistersOk<T>(s: State<T>, q: Producer<T>) {
    match q
    case Idle => true
    case LoadedWrite(items, count, w) => count <= |items| && w <= s.write && w <= s.read + |s.buffer|
    case Reserving(items, count, w) => 0 < count <= |items| && w <= s.write && w + count <= s.read + |s.buffer|
    case Filling(items, count, start, filled) => 0 < count <= |items| && filled <= count
    case Committing(items, count, start) => 0 < count <= |items| && start == s.commit
  }

  ghost predicate Registers<T>(s: State<T>) {
    forall p :: 0 <= p < |s.producers| ==> RegistersOk(s, s.producers[p])
  }

  ghost predicate PendingAt<T>(s: State<T>, k: nat, start: nat, end: nat)
    requires k < |s.pending|
  {
    var p := s.pending[k];
    p < |s.producers| && Outstanding(s.producers[p]) && s.producers[p].start == start && End(s.producers[p]) == end
    && start < end
  }

  /** The outstanding batches, in reservation order, exactly tile [commit, write):
      the k-th one occupies [cuts[k], cuts[k + 1]). */
  ghost predicate TiledBy<T>(s: State<T>, cuts: seq<nat>) {
    && |cuts| == |s.pending| + 1 && cuts[0] == s.commit && cuts[|s.pending|] == s.write
    && (forall k :: 0 <= k < |s.pending| ==> PendingAt(s, k, cuts[k], cuts[k + 1]))
    && (forall j, k :: 0 <= j < k < |cuts| ==> cuts[j] < cuts[k])
  }

  ghost predicate Tiling<T>(s: State<T>) {
    && (exists cuts :: TiledBy(s, cuts))
    && (forall p :: 0 <= p < |s.producers| && Outstanding(s.producers[p]) ==> p in s.pending)
  }

  /** The items of a batch, and the slots already written, agree with the log. */
  ghost predicate BatchOk<T>(s: State<T>, log: seq<T>, q: Producer<T>)
    requires |s.buffer| > 0 && Outstanding(q) && q.count <= |q.items| && End(q) <= |log|
  {
    && (forall i :: 0 <= i < q.count ==> log[q.start + i] == q.items[i])
    && (forall j :: q.start <= j < q.start + Filled(q) && j < |log| ==> s.buffer[Slot(j, |s.buffer|)] == log[j])
  }

  ghost predicate Batches<T>(s: State<T>, log: seq<T>)
    requires |s.buffer| > 0
  {
    forall p :: 0 <= p < |s.producers| && Outstanding(s.producers[p]) ==>
      s.producers[p].count <= |s.producers[p].items| && End(s.producers[p]) <= |log|
      && BatchOk(s, log, s.producers[p])
  }

  ghost predicate Committed<T>(s: State<T>, log: seq<T>)
    requires |s.buffer| > 0
  {
    forall j :: s.read <= j < s.commit && j < |log| ==> s.buffer[Slot(j, |s.buffer|)] == log[j]
  }

  ghost predicate ConsumerOk<T>(s: State<T>, log: seq<T>) {
    match s.consumer
    case Resting => true
    case LoadedRead(_, r) => r == s.read
    case Copying(r, actual, out) =>
      r == s.read && 0 < actual && r + actual <= s.commit && |out| <= actual
      && (forall i :: 0 <= i < |out| && r + i < |log| ==> out[i] == log[r + i])
  }

  ghost predicate OutputOk<T>(s: State<T>, log: seq<T>) {
    |s.output| == s.read <= |log| && forall i :: 0 <= i < |s.output| ==> s.output[i] == log[i]
  }

  ghost predicate Contents<T>(s: State<T>, log: seq<T>) {
    |s.buffer| > 0 && |log| == s.write && Batches(s, log) && Committed(s, log) && ConsumerOk(s, log) && OutputOk(s, log)
  }

  ghost predicate Inv<T>(s: State<T>) {
    Ordered(s) && Registers(s) && Tiling(s) && Contents(s, Flatten(s.accepted))
  }

  // --------------------------------------------------------------- tiling

  lemma BatchWithin<T>(s: State<T>, p: nat)
    requires Tiling(s) && p < |s.producers| && Outstanding(s.producers[p])
    ensures s.commit <= s.producers[p].start < End(s.producers[p]) <= s.write
  {
    var cuts :| TiledBy(s, cuts);
    var k :| 0 <= k < |s.pending| && s.pending[k] == p;
    assert PendingAt(s, k, cuts[k], cuts[k + 1]);
  }

  /** Different outstanding producers own disjoint index ranges. */
  lemma BatchesDisjoint<T>(s: State<T>, p: nat, q: nat)
    requires Tiling(s) && p < |s.producers| && q < |s.producers| && p != q
    requires Outstanding(s.producers[p]) && Outstanding(s.producers[q])
    ensures End(s.producers[p]) <= s.producers[q].start || End(s.producers[q]) <= s.producers[p].start
  {
    var cuts :| TiledBy(s, cuts);
    var j :| 0 <= j < |s.pending| && s.pending[j] == p;
    var k :| 0 <= k < |s.pending| && s.pending[k] == q;
    assert PendingAt(s, j, cuts[j], cuts[j + 1]) && PendingAt(s, k, cuts[k], cuts[k + 1]);
    if j < k { assert cuts[j + 1] <= cuts[k]; } else { assert cuts[k + 1] <= cuts[j]; }
  }

  /** Every index of [commit, write) is owned. */
  lemma IndexOwned<T>(s: State<T>, i: nat) returns (p: nat)
    requires Tiling(s) && s.commit <= i < s.write
    ensures p < |s.producers| && Outstanding(s.producers[p])
    ensures s.producers[p].start <= i < End(s.producers[p])
  {
    var cuts :| TiledBy(s, cuts);
    var k := 0;
    while cuts[k + 1] <= i
      invariant 0 <= k < |s.pending| && cuts[k] <= i
      decreases |s.pending| - k
    {
      k := k + 1;
    }
    assert PendingAt(s, k, cuts[k], cuts[k + 1]);
    p := s.pending[k];
  }

  /** The producer whose batch starts at `commit_idx_` is the oldest outstanding one. */
  lemma CommitterIsOldest<T>(s: State<T>, p: nat)
    requires Tiling(s) && p < |s.producers| && Outstanding(s.producers[p]) && s.producers[p].start == s.commit
    ensures s.pending != [] && s.pending[0] == p
  {
    var cuts :| TiledBy(s, cuts);
    var k :| 0 <= k < |s.pending| && s.pending[k] == p;
    assert PendingAt(s, k, cuts[k], cuts[k + 1]);
  }

  lemma OldestStartsAtCommit<T>(s: State<T>)
    requires Tiling(s) && s.pending != []
    ensures s.pending[0] < |s.producers| && Outstanding(s.producers[s.pending[0]])
    ensures s.producers[s.pending[0]].start == s.commit
  {
    var cuts :| TiledBy(s, cuts);
    assert PendingAt(s, 0, cuts[0], cuts[1]);
  }

  lemma NothingOutstanding<T>(s: State<T>)
    requires Tiling(s) && s.pending == []
    ensures s.commit == s.write
  {
  }

  /** Steps that move no outstanding batch keep the tiling. */
  lemma TilingKept<T>(s: State<T>, t: State<T>)
    requires Tiling(s) && t.pending == s.pending && t.commit == s.commit && t.write == s.write
    requires |t.producers| == |s.producers|
    requires forall p :: 0 <= p < |s.producers| ==>
               Outstanding(t.producers[p]) == Outstanding(s.producers[p])
               && (Outstanding(s.producers[p]) ==>
                     t.producers[p].start == s.producers[p].start && t.producers[p].count == s.producers[p].count)
    ensures Tiling(t)
  {
    var cuts :| TiledBy(s, cuts);
    forall k | 0 <= k < |t.pending| ensures PendingAt(t, k, cuts[k], cuts[k + 1]) {
      assert PendingAt(s, k, cuts[k], cuts[k + 1]);
    }
    assert TiledBy(t, cuts);
  }

  lemma ExchangeTiling<T>(s: State<T>, p: nat)
    requires Tiling(s) && CanExchange(s, p) && s.write == s.producers[p].w && s.producers[p].count > 0
    ensures Tiling(Exchange(s, p))
  {
    var t := Exchange(s, p);
    var cuts :| TiledBy(s, cuts);
    var cuts' := cuts + [t.write];
    forall k | 0 <= k < |t.pending| ensures PendingAt(t, k, cuts'[k], cuts'[k + 1]) {
      if k < |s.pending| { assert PendingAt(s, k, cuts[k], cuts[k + 1]); }
    }
    assert TiledBy(t, cuts');
    forall o | 0 <= o < |t.producers| && Outstanding(t.producers[o]) ensures o in t.pending {
      assert t.pending[|s.pending|] == p;
      if o != p { assert o in s.pending; }
    }
  }

  lemma CommitTiling<T>(s: State<T>, p: nat)
    requires Tiling(s) && CanCommit(s, p) && s.producers[p].start == s.commit
    ensures Tiling(Commit(s, p))
  {
    var t := Commit(s, p);
    CommitterIsOldest(s, p);
    var cuts :| TiledBy(s, cuts);
    assert PendingAt(s, 0, cuts[0], cuts[1]);
    var cuts' := cuts[1..];
    forall k | 0 <= k < |t.pending| ensures PendingAt(t, k, cuts'[k], cuts'[k + 1]) {
      assert PendingAt(s, k + 1, cuts[k + 1], cuts[k + 2]);
    }
    assert TiledBy(t, cuts');
    forall o | 0 <= o < |t.producers| && Outstanding(t.producers[o]) ensures o in t.pending {
      var k :| 0 <= k < |s.pending| && s.pending[k] == o;
      assert t.pending[k - 1] == o;
    }
  }

  // ------------------------------------------------------------- contents

  /** The slot a producer is about to write holds no committed item that is still to be read
      (in particular none the consumer is copying), and no slot of another producer's batch. */
  lemma WriteIsExclusive<T>(s: State<T>, p: nat, j: nat)
    requires Ordered(s) && Tiling(s) && CanWriteSlot(s, p)
    requires s.read <= j < s.write && j != s.producers[p].start + s.producers[p].filled
    ensures Slot(j, |s.buffer|) != Slot(s.producers[p].start + s.producers[p].filled, |s.buffer|)
  {
    BatchWithin(s, p);
    var at := s.producers[p].start + s.producers[p].filled;
    if j < at { SlotsDiffer(j, at, |s.buffer|); } else { SlotsDiffer(at, j, |s.buffer|); }
  }

  lemma WriteSlotContents<T>(s: State<T>, p: nat, log: seq<T>)
    requires Ordered(s) && Registers(s) && Tiling(s) && Contents(s, log) && CanWriteSlot(s, p)
    ensures Contents(WriteSlot(s, p), log)
  {
    BatchWithin(s, p);
    WrittenAlone(s, p);
    WriteSlotBatches(s, p, log);
    WriteSlotCommitted(s, p, log);
  }

  lemma WriteSlotCommitted<T>(s: State<T>, p: nat, log: seq<T>)
    requires CanWriteSlot(s, p) && |s.buffer| > 0 && Committed(s, log)
    requires s.commit <= s.producers[p].start && s.commit <= s.write == |log|
    requires WriteApart(s, s.producers[p].start + s.producers[p].filled)
    ensures Committed(WriteSlot(s, p), log)
  {
  }

  /** No other live index has the slot that is written. */
  lemma WrittenAlone<T>(s: State<T>, p: nat)
    requires Ordered(s) && Registers(s) && Tiling(s) && |s.buffer| > 0 && CanWriteSlot(s, p)
    ensures WriteApart(s, s.producers[p].start + s.producers[p].filled)
  {
    var at := s.producers[p].start + s.producers[p].filled;
    forall j | s.read <= j < s.write && j != at
      ensures Slot(j, |s.buffer|) != Slot(at, |s.buffer|)
    {
      WriteIsExclusive(s, p, j);
    }
  }

  ghost predicate WriteApart<T>(s: State<T>, at: nat) {
    |s.buffer| > 0 && forall j | s.read <= j < s.write && j != at :: Slot(j, |s.buffer|) != Slot(at, |s.buffer|)
  }

  lemma WriteSlotBatches<T>(s: State<T>, p: nat, log: seq<T>)
    requires Ordered(s) && Registers(s) && Tiling(s) && Contents(s, log) && CanWriteSlot(s, p)
    requires WriteApart(s, s.producers[p].start + s.producers[p].filled)
    ensures Batches(WriteSlot(s, p), log)
  {
    var t, q := WriteSlot(s, p), s.producers[p];
    BatchWithin(s, p);
    assert BatchOk(s, log, q);
    forall o | 0 <= o < |t.producers| && Outstanding(t.producers[o]) ensures BatchOk(t, log, t.producers[o]) {
      BatchWithin(s, o);
      if o != p { BatchesDisjoint(s, o, p); }
      WriteSlotBatch(s, p, log, o);
    }
  }

  /** The write leaves every other batch alone and makes its own one slot longer. */
  lemma WriteSlotBatch<T>(s: State<T>, p: nat, log: seq<T>, o: nat)
    requires CanWriteSlot(s, p) && |s.buffer| > 0 && o < |s.producers| && Outstanding(s.producers[o])
    requires var q, r := s.producers[p], s.producers[o];
             var at := q.start + q.filled;
             && s.read <= r.start && r.count <= |r.items| && End(r) <= |log| == s.write && BatchOk(s, log, r)
             && at < |log| && log[at] == q.items[q.filled]
             && (o != p ==> End(r) <= q.start || End(q) <= r.start)
             && forall j | s.read <= j < s.write && j != at :: Slot(j, |s.buffer|) != Slot(at, |s.buffer|)
    ensures BatchOk(WriteSlot(s, p), log, WriteSlot(s, p).producers[o])
  {
  }

  lemma ExchangeContents<T>(s: State<T>, p: nat, log: seq<T>)
    requires Ordered(s) && Registers(s) && Tiling(s) && Contents(s, log)
    requires CanExchange(s, p) && s.write == s.producers[p].w
    ensures Contents(Exchange(s, p), log + s.producers[p].items[..s.producers[p].count])
  {
    var t, q := Exchange(s, p), s.producers[p];
    var log' := log + q.items[..q.count];
    forall o | 0 <= o < |t.producers| && Outstanding(t.producers[o])
      ensures End(t.producers[o]) <= |log'| && BatchOk(t, log', t.producers[o])
    {
      if o != p { BatchWithin(s, o); assert BatchOk(s, log, s.producers[o]); }
    }
  }

  lemma CommitContents<T>(s: State<T>, p: nat, log: seq<T>)
    requires Ordered(s) && Registers(s) && Tiling(s) && Contents(s, log) && CanCommit(s, p)
    ensures Contents(Commit(s, p), log)
  {
    var t, q := Commit(s, p), s.producers[p];
    assert RegistersOk(s, q);
    assert BatchOk(s, log, q);
    forall o | 0 <= o < |t.producers| && Outstanding(t.producers[o]) ensures BatchOk(t, log, t.producers[o]) {
      assert BatchOk(s, log, s.producers[o]);
    }
  }

  /** Steps that touch neither the indices nor the buffer, nor any batch's progress. */
  lemma ContentsKept<T>(s: State<T>, t: State<T>, log: seq<T>)
    requires Contents(s, log)
    requires t.buffer == s.buffer && t.write == s.write && t.read == s.read && t.commit == s.commit
    requires t.output == s.output && t.consumer == s.consumer && |t.producers| == |s.producers|
    requires forall p :: 0 <= p < |s.producers| && Outstanding(t.producers[p]) ==>
               Outstanding(s.producers[p]) && t.producers[p].start == s.producers[p].start
               && t.producers[p].count == s.producers[p].count && t.producers[p].items == s.producers[p].items
               && Filled(t.producers[p]) == Filled(s.producers[p])
    ensures Contents(t, log)
  {
    forall o | 0 <= o < |t.producers| && Outstanding(t.producers[o]) ensures BatchOk(t, log, t.producers[o]) {
      assert BatchOk(s, log, s.producers[o]);
    }
  }

  lemma ConsumerContents<T>(s: State<T>, t: State<T>, log: seq<T>)
    requires Ordered(s) && Contents(s, log)
    requires t.buffer == s.buffer && t.write == s.write && t.commit == s.commit && t.producers == s.producers
    requires s.read <= t.read && ConsumerOk(t, log) && OutputOk(t, log)
    ensures Contents(t, log)
  {
    forall o | 0 <= o < |t.producers| && Outstanding(t.producers[o]) ensures BatchOk(t, log, t.producers[o]) {
      assert BatchOk(s, log, s.producers[o]);
    }
  }

  lemma FlattenSnoc<T>(batches: seq<seq<T>>, b: seq<T>)
    ensures Flatten(batches + [b]) == Flatten(batches) + b
  {
    assert (batches + [b])[..|batches|] == batches;
  }

  // ---------------------------------------------------- invariance, by step

  lemma RegistersKept<T>(s: State<T>, t: State<T>, p: nat)
    requires Registers(s) && p < |s.producers| == |t.producers|
    requires t.producers == s.producers[p := t.producers[p]] && RegistersOk(t, t.producers[p])
    requires |t.buffer| == |s.buffer| && s.write <= t.write && s.read <= t.read
    requires forall o :: 0 <= o < |s.producers| && o != p && s.producers[o].Committing? ==> s.commit == t.commit
    ensures Registers(t)
  {
    forall o | 0 <= o < |t.producers| ensures RegistersOk(t, t.producers[o]) {
      assert RegistersOk(s, s.producers[o]);
    }
  }

  lemma LoadStepsInv<T>(s: State<T>, t: State<T>, p: nat)
    requires Inv(s) && p < |s.producers| && !Outstanding(s.producers[p])
    requires |t.producers| == |s.producers| && t == SetProducer(s, p, t.producers[p])
    requires !Outstanding(t.producers[p]) && RegistersOk(t, t.producers[p])
    ensures Inv(t)
  {
    RegistersKept(s, t, p);
    TilingKept(s, t);
    ContentsKept(s, t, Flatten(s.accepted));
  }

  lemma LoadWriteInv<T>(s: State<T>, p: nat, items: seq<T>)
    requires Inv(s) && CanLoadWrite(s, p)
    ensures Inv(LoadWrite(s, p, items))
  {
    LoadStepsInv(s, LoadWrite(s, p, items), p);
  }

  /** The room computed from a stale `write_idx` is safe, because `read_idx_` is loaded after it. */
  lemma LoadReadInv<T>(s: State<T>, p: nat)
    requires Inv(s) && CanLoadRead(s, p)
    ensures Inv(LoadRead(s, p))
  {
    assert RegistersOk(s, s.producers[p]);
    LoadStepsInv(s, LoadRead(s, p), p);
  }

  lemma FailExchangeInv<T>(s: State<T>, p: nat)
    requires Inv(s) && CanExchange(s, p)
    ensures Inv(FailExchange(s, p))
  {
    assert RegistersOk(s, s.producers[p]);
    LoadStepsInv(s, FailExchange(s, p), p);
  }

  lemma ExchangeInv<T>(s: State<T>, p: nat)
    requires Inv(s) && CanExchange(s, p) && s.write == s.producers[p].w
    ensures Inv(Exchange(s, p))
  {
    var t, q := Exchange(s, p), s.producers[p];
    assert RegistersOk(s, q);
    RegistersKept(s, t, p);
    ExchangeTiling(s, p);
    ExchangeContents(s, p, Flatten(s.accepted));
    FlattenSnoc(s.accepted, q.items[..q.count]);
  }

  lemma WriteSlotInv<T>(s: State<T>, p: nat)
    requires Inv(s) && CanWriteSlot(s, p)
    ensures Inv(WriteSlot(s, p))
  {
    var t := WriteSlot(s, p);
    RegistersKept(s, t, p);
    TilingKept(s, t);
    WriteSlotContents(s, p, Flatten(s.accepted));
  }

  lemma LeaveSpinInv<T>(s: State<T>, p: nat)
    requires Inv(s) && CanLeaveSpin(s, p)
    ensures Inv(LeaveSpin(s, p))
  {
    var t := LeaveSpin(s, p);
    assert RegistersOk(s, s.producers[p]);
    RegistersKept(s, t, p);
    TilingKept(s, t);
    ContentsKept(s, t, Flatten(s.accepted));
  }

  lemma CommitInv<T>(s: State<T>, p: nat)
    requires Inv(s) && CanCommit(s, p)
    ensures Inv(Commit(s, p))
  {
    var t := Commit(s, p);
    assert RegistersOk(s, s.producers[p]);
    BatchWithin(s, p);
    forall o | 0 <= o < |s.producers| && o != p && s.producers[o].Committing? ensures false {
      assert RegistersOk(s, s.producers[o]);
      CommitterIsOldest(s, p);
      CommitterIsOldest(s, o);
    }
    RegistersKept(s, t, p);
    CommitTiling(s, p);
    CommitContents(s, p, Flatten(s.accepted));
  }

  lemma ConsumerInv<T>(s: State<T>, t: State<T>)
    requires Inv(s)
    requires t == s.(consumer := t.consumer, read := t.read, output := t.output)
    requires s.read <= t.read <= s.commit
    requires ConsumerOk(t, Flatten(s.accepted)) && OutputOk(t, Flatten(s.accepted))
    ensures Inv(t)
  {
    forall o | 0 <= o < |t.producers| ensures RegistersOk(t, t.producers[o]) {
      assert RegistersOk(s, s.producers[o]);
    }
    TilingKept(s, t);
    ConsumerContents(s, t, Flatten(s.accepted));
  }

  lemma CopySlotInv<T>(s: State<T>)
    requires Inv(s) && CanCopy(s)
    ensures Inv(CopySlot(s))
  {
    var log := Flatten(s.accepted);
    var at := s.consumer.r + |s.consumer.out|;
    assert Committed(s, log) && at < |log|;
    assert s.buffer[Slot(at, |s.buffer|)] == log[at];
    ConsumerInv(s, CopySlot(s));
  }

  /** Every step of every thread keeps the invariant. */
  lemma StepInv<T>(s: State<T>, a: Step<T>)
    requires Inv(s) && Enabled(s, a)
    ensures Inv(Apply(s, a))
  {
    match a
    case StepLoadWrite(p, items) => LoadWriteInv(s, p, items);
    case StepLoadRead(p) => LoadReadInv(s, p);
    case StepFailExchange(p) => FailExchangeInv(s, p);
    case StepExchange(p) => ExchangeInv(s, p);
    case StepWriteSlot(p) => WriteSlotInv(s, p);
    case StepLeaveSpin(p) => LeaveSpinInv(s, p);
    case StepCommit(p) => CommitInv(s, p);
    case StepConsumerLoadRead(want) => ConsumerInv(s, ConsumerLoadRead(s, want));
    case StepConsumerLoadCommit => ConsumerInv(s, ConsumerLoadCommit(s));
    case StepCopySlot => CopySlotInv(s);
    case StepRelease => ConsumerInv(s, Release(s));
  }

  lemma InitInv<T>(s: State<T>)
    requires Init(s)
    ensures Inv(s)
  {
    assert TiledBy(s, [0]);
  }

  /** Nothing accepted or received is taken back. */
  lemma StepExtends<T>(s: State<T>, a: Step<T>)
    requires Enabled(s, a)
    ensures s.accepted <= Apply(s, a).accepted && s.output <= Apply(s, a).output
    ensures |Apply(s, a).buffer| == |s.buffer|
  {
  }

  lemma {:induction false} RunInv<T>(s: State<T>, steps: seq<Step<T>>, t: State<T>)
    requires Inv(s) && Reaches(s, steps, t)
    ensures Inv(t) && s.accepted <= t.accepted && s.output <= t.output && |t.buffer| == |s.buffer|
    decreases |steps|
  {
    if steps != [] {
      StepInv(s, steps[0]);
      StepExtends(s, steps[0]);
      RunInv(Apply(s, steps[0]), steps[1..], t);
    }
  }

  // -------------------------------------------------------------- theorems

  /** In every run, what the consumer has received is a prefix of the accepted batches laid
      end to end in the order of their reservations. */
  lemma OutputIsPrefix<T>(s: State<T>, steps: seq<Step<T>>, t: State<T>)
    requires Init(s) && Reaches(s, steps, t)
    ensures t.output <= Flatten(t.accepted)
    ensures |t.output| == t.read && |Flatten(t.accepted)| == t.write
  {
    InitInv(s);
    RunInv(s, steps, t);
  }

  /** In every run, the indices stay ordered and the outstanding batches tile [commit, write):
      each index has an owner, and no two batches overlap or leave that range. */
  lemma IndicesAndTiling<T>(s: State<T>, steps: seq<Step<T>>, t: State<T>)
    requires Init(s) && Reaches(s, steps, t)
    ensures t.read <= t.commit <= t.write <= t.read + |t.buffer|
    ensures forall i {:trigger Owned(t, i)} :: t.commit <= i < t.write ==> Owned(t, i)
    ensures forall p, q :: 0 <= p < q < |t.producers| && Outstanding(t.producers[p]) && Outstanding(t.producers[q])
              ==> End(t.producers[p]) <= t.producers[q].start || End(t.producers[q]) <= t.producers[p].start
    ensures forall p :: 0 <= p < |t.producers| && Outstanding(t.producers[p])
              ==> t.commit <= t.producers[p].start < End(t.producers[p]) <= t.write
  {
    InitInv(s);
    RunInv(s, steps, t);
    forall i | t.commit <= i < t.write ensures Owned(t, i) {
      var p := IndexOwned(t, i);
    }
    forall p, q | 0 <= p < q < |t.producers| && Outstanding(t.producers[p]) && Outstanding(t.producers[q])
      ensures End(t.producers[p]) <= t.producers[q].start || End(t.producers[q]) <= t.producers[p].start
    {
      BatchesDisjoint(t, p, q);
    }
    forall p | 0 <= p < |t.producers| && Outstanding(t.producers[p])
      ensures t.commit <= t.producers[p].start < End(t.producers[p]) <= t.write
    {
      BatchWithin(t, p);
    }
  }

  ghost predicate Owned<T>(s: State<T>, i: int) {
    exists p :: 0 <= p < |s.producers| && Outstanding(s.producers[p])
      && s.producers[p].start <= i < End(s.producers[p])
  }

  /** In every run, a producer about to store an item writes a slot of none of the indices that
      are readable, being copied, or reserved by another producer, despite its stale loads. */
  lemma NoOverwrite<T>(s: State<T>, steps: seq<Step<T>>, t: State<T>, p: nat, j: nat)
    requires Init(s) && Reaches(s, steps, t) && CanWriteSlot(t, p)
    requires t.read <= j < t.commit || (t.consumer.Copying? && t.consumer.r <= j < t.consumer.r + t.consumer.actual)
             || (exists o :: 0 <= o < |t.producers| && o != p && Outstanding(t.producers[o])
                   && t.producers[o].start <= j < End(t.producers[o]))
    ensures Slot(j, |t.buffer|) != Slot(t.producers[p].start + t.producers[p].filled, |t.buffer|)
  {
    InitInv(s);
    RunInv(s, steps, t);
    BatchWithin(t, p);
    if o :| 0 <= o < |t.producers| && o != p && Outstanding(t.producers[o])
            && t.producers[o].start <= j < End(t.producers[o]) {
      BatchWithin(t, o);
      BatchesDisjoint(t, o, p);
    }
    WriteIsExclusive(t, p, j);
  }

  /** In every run, the subtraction behind `available` is never negative when `read_idx_` is loaded,
      so the unsigned expression of the source is the number used here. */
  lemma AvailableNotNegative<T>(s: State<T>, steps: seq<Step<T>>, t: State<T>, p: nat)
    requires Init(s) && Reaches(s, steps, t) && CanLoadRead(t, p)
    ensures |t.buffer| - (t.producers[p].w - t.read) >= 0
  {
    InitInv(s);
    RunInv(s, steps, t);
    assert RegistersOk(t, t.producers[p]);
  }

  /** When `enqueue_bulk` gives up: exactly if there is nothing to enqueue, or no room behind the write index it loaded;
      and then the queue is full at this very moment, although that index may be stale. */
  lemma GivesUpWhenFull<T>(s: State<T>, steps: seq<Step<T>>, t: State<T>, p: nat)
    requires Init(s) && Reaches(s, steps, t) && CanLoadRead(t, p)
    ensures var q := t.producers[p];
            && (LoadRead(t, p).producers[p].Idle? <==> q.count == 0 || q.w == t.read + |t.buffer|)
            && (LoadRead(t, p).producers[p].Idle? && q.count > 0 ==> t.write == t.read + |t.buffer|)
  {
    InitInv(s);
    RunInv(s, steps, t);
    assert RegistersOk(t, t.producers[p]);
  }

  /** When `dequeue_bulk` returns nothing: exactly if nothing was wanted or nothing is committed at this moment.
      Otherwise it goes for all that is wanted and committed. */
  lemma EmptyWhenNothingCommitted<T>(s: State<T>, steps: seq<Step<T>>, t: State<T>)
    requires Init(s) && Reaches(s, steps, t) && t.consumer.LoadedRead?
    ensures ConsumerLoadCommit(t).consumer.Resting? <==> t.consumer.want == 0 || t.commit == t.read
    ensures var d := ConsumerLoadCommit(t).consumer;
            d.Copying? ==> d.r == t.read && d.actual == Min(t.consumer.want, t.commit - t.read) && d.out == []
  {
    InitInv(s);
    RunInv(s, steps, t);
  }

  // ------------------------------------------------------------- progress

  predicate TakenBy<T>(a: Step<T>, p: nat) {
    match a
    case StepLoadWrite(q, _) => q == p
    case StepLoadRead(q) => q == p
    case StepFailExchange(q) => q == p
    case StepExchange(q) => q == p
    case StepWriteSlot(q) => q == p
    case StepLeaveSpin(q) => q == p
    case StepCommit(q) => q == p
    case _ => false
  }

  /** The steps a producer still has to take to commit its batch once its turn has come. */
  function Remaining<T>(q: Producer<T>): nat {
    match q
    case Filling(_, count, _, filled) => if filled <= count then 2 + count - filled else 0
    case Committing(_, _, _) => 1
    case _ => 0
  }

  /** The next step of the oldest outstanding producer. */
  function OldestStep<T>(s: State<T>): Step<T>
    requires s.pending != [] && s.pending[0] < |s.producers|
  {
    var p := s.pending[0];
    var q := s.producers[p];
    if q.Committing? then StepCommit(p)
    else if q.Filling? && q.filled < q.count then StepWriteSlot(p)
    else StepLeaveSpin(p)
  }

  /** The commit wait cannot deadlock: the oldest outstanding producer can always move, each of its
      own moves brings its commit one step nearer, and nobody else's move sets it back. */
  lemma OldestAdvances<T>(s: State<T>, a: Step<T>)
    requires Inv(s) && s.pending != [] && Enabled(s, a)
    ensures s.pending[0] < |s.producers| && Enabled(s, OldestStep(s)) && Remaining(s.producers[s.pending[0]]) > 0
    ensures !TakenBy(a, s.pending[0]) ==>
              Apply(s, a).pending != [] && Apply(s, a).pending[0] == s.pending[0]
              && Apply(s, a).producers[s.pending[0]] == s.producers[s.pending[0]]
    ensures TakenBy(a, s.pending[0]) ==>
              a == OldestStep(s)
              && Remaining(Apply(s, a).producers[s.pending[0]]) == Remaining(s.producers[s.pending[0]]) - 1
    ensures TakenBy(a, s.pending[0]) && Remaining(s.producers[s.pending[0]]) == 1 ==>
              Apply(s, a).commit == End(s.producers[s.pending[0]])
    ensures TakenBy(a, s.pending[0]) && Remaining(s.producers[s.pending[0]]) > 1 ==>
              Apply(s, a).pending == s.pending && Outstanding(Apply(s, a).producers[s.pending[0]])
              && End(Apply(s, a).producers[s.pending[0]]) == End(s.producers[s.pending[0]])
  {
    OldestStartsAtCommit(s);
    assert RegistersOk(s, s.producers[s.pending[0]]);
    if a.StepCommit? {
      assert RegistersOk(s, s.producers[a.p]);
      CommitterIsOldest(s, a.p);
    }
  }

  /** From every reachable state with an outstanding batch, the oldest producer commits it by its own
      steps alone. */
  lemma {:induction false} OldestCommits<T>(s: State<T>) returns (steps: seq<Step<T>>, t: State<T>)
    requires Inv(s) && s.pending != []
    ensures Reaches(s, steps, t) && (forall a :: a in steps ==> TakenBy(a, s.pending[0]))
    ensures s.pending[0] < |s.producers| && Outstanding(s.producers[s.pending[0]])
    ensures t.commit == End(s.producers[s.pending[0]])
    ensures |steps| == Remaining(s.producers[s.pending[0]])
    decreases if s.pending[0] < |s.producers| then Remaining(s.producers[s.pending[0]]) else 0
  {
    OldestStartsAtCommit(s);
    assert RegistersOk(s, s.producers[s.pending[0]]);
    var a := OldestStep(s);
    assert Enabled(s, a);
    OldestAdvances(s, a);
    StepInv(s, a);
    var s1 := Apply(s, a);
    var rest: seq<Step<T>> := [];
    if Remaining(s.producers[s.pending[0]]) == 1 {
      t := s1;
    } else {
      rest, t := OldestCommits(s1);
    }
    steps := [a] + rest;
    assert steps[1..] == rest;
  }
}
