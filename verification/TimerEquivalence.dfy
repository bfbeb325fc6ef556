/**
 The two timer managers against one specification: a manager is the multiset of the expiries it
 holds. Started in step, a list and a queue stay in step, and a moment `now` makes both expire
 the same sequence of expiries.
 */
module TimerEquivalence {
  import opened TimerSpec
  import opened MinHeap
  import opened TimerSchedule
  import opened TimerHeap
  import opened TimerQueue
  import L = TimerList

  /** A list sorted by `keys` and a heap `h` holding the same expiries. */
  ghost predicate InStep(keys: seq<int>, h: seq<Slot<Timer>>, due: map<Timer, int>) {
    Sorted(keys) && HeapOf(h, due) && multiset(keys) == multiset(Keys(h))
  }

  lemma SlotsUnique(m: multiset<Slot<Timer>>, n: multiset<Slot<Timer>>, due: map<Timer, int>)
    requires SlotsOf(m, due) && SlotsOf(n, due)
    ensures m == n
  {
    forall s ensures m[s] == n[s] {
      if s in m { assert Slot(s.timer, due[s.timer]) in n; }
      if s in n { assert Slot(s.timer, due[s.timer]) in m; }
    }
  }

  lemma KeysAfterInsert(h: seq<Slot<Timer>>, due: map<Timer, int>, s: Slot<Timer>, r: seq<Slot<Timer>>)
    requires HeapOf(h, due) && s.timer !in due && HeapOf(r, due[s.timer := s.key])
    ensures multiset(Keys(r)) == multiset(Keys(h)) + multiset{s.key}
  {
    SlotsAdd(multiset(h), due, s.timer, s.key);
    AppendMultiset(h, s);
    SlotsUnique(multiset(h + [s]), multiset(r), due[s.timer := s.key]);
    KeysPermuted(h + [s], r);
    assert Keys(h + [s]) == Keys(h) + [s.key];
  }

  lemma KeysAfterErase(h: seq<Slot<Timer>>, due: map<Timer, int>, t: Timer, r: seq<Slot<Timer>>)
    requires HeapOf(h, due) && t in due && HeapOf(r, due - {t})
    ensures multiset(Keys(h)) == multiset(Keys(r)) + multiset{due[t]}
  {
    KeysAfterInsert(r, due - {t}, Slot(t, due[t]), h) by {
      assert (due - {t})[t := due[t]] == due;
    }
  }

  lemma KeysAfterRemove(keys: seq<int>, k: nat)
    requires k < |keys|
    ensures multiset(keys) == multiset(RemoveAt(keys, k)) + multiset{keys[k]}
  {
    assert keys == keys[..k] + [keys[k]] + keys[k + 1..];
  }

  lemma RemainsHeap(h: seq<Slot<Timer>>, now: int, due: map<Timer, int>, r: seq<Slot<Timer>>, taken: seq<Slot<Timer>>)
    requires HeapOf(h, due) && Taken(h, now, r, taken)
    ensures HeapOf(r, due - Elements(TimersOf(taken)))
  {
    TakenLeft(multiset(h), due, taken, multiset(r));
  }

  /** `tick` takes the first `c` keys from the list and `getExpired` the slots `taken` from the heap, each as its
      contract says: the expiries are the same, one by one. */
  lemma SameExpiries(keys: seq<int>, c: nat, now: int, h: seq<Slot<Timer>>, due: map<Timer, int>,
                     r: seq<Slot<Timer>>, taken: seq<Slot<Timer>>)
    requires c <= |keys| && Splits(multiset(keys), now, keys[..c], multiset(keys[c..]))
    requires HeapOf(h, due) && Taken(h, now, r, taken) && (r != [] ==> r[0].key > now)
    requires multiset(keys) == multiset(Keys(h))
    ensures keys[..c] == Keys(taken) && multiset(keys[c..]) == multiset(Keys(r))
  {
    TakenIsDue(h, due, now, r, taken);
    SplitUnique(multiset(keys), now, keys[..c], multiset(keys[c..]), Keys(taken), multiset(Keys(r)));
  }

  lemma TakenExpiries(keys: seq<int>, c: nat, now: int, h: seq<Slot<Timer>>, due: map<Timer, int>,
                      r: seq<Slot<Timer>>, taken: seq<Slot<Timer>>)
    requires HeapOf(h, due) && Taken(h, now, r, taken) && c <= |keys| && keys[..c] == Keys(taken)
    ensures |TimersOf(taken)| == c
    ensures forall i :: 0 <= i < c ==> TimersOf(taken)[i] in due && due[TimersOf(taken)[i]] == keys[i]
  {
    TakenTimers(multiset(h), due, taken, multiset(r));
    forall i | 0 <= i < c ensures TimersOf(taken)[i] in due && due[TimersOf(taken)[i]] == keys[i] {
      assert Keys(taken)[i] == keys[..c][i];
    }
  }

  lemma SuffixSorted(keys: seq<int>, c: nat)
    requires Sorted(keys) && c <= |keys|
    ensures Sorted(keys[c..])
  {
  }

  /** After both have expired the same sequence, what remains is in step. */
  lemma StepExpire(keys: seq<int>, c: nat, now: int, h: seq<Slot<Timer>>, due: map<Timer, int>,
                   r: seq<Slot<Timer>>, taken: seq<Slot<Timer>>)
    requires InStep(keys, h, due)
    requires c <= |keys| && Splits(multiset(keys), now, keys[..c], multiset(keys[c..]))
    requires Taken(h, now, r, taken) && (r != [] ==> r[0].key > now)
    ensures InStep(keys[c..], r, due - Elements(TimersOf(taken)))
  {
    SameExpiries(keys, c, now, h, due, r, taken);
    RemainsHeap(h, now, due, r, taken);
    SuffixSorted(keys, c);
  }

  /** One more timer with the same expiry: `add_timer` on the list, `insert` on the queue. */
  lemma StepAdd(keys: seq<int>, h: seq<Slot<Timer>>, due: map<Timer, int>, t: Timer, k: int, r: seq<Slot<Timer>>)
    requires InStep(keys, h, due) && t !in due && HeapOf(r, due[t := k])
    ensures InStep(Insert(keys, k), r, due[t := k])
  {
    InsertMultiset(keys, k);
    InsertSorted(keys, k);
    KeysAfterInsert(h, due, Slot(t, k), r);
  }

  /** Timers with the same expiry are taken out: `del_timer` on the list, `cancel` on the queue. */
  lemma StepRemove(keys: seq<int>, i: nat, h: seq<Slot<Timer>>, due: map<Timer, int>, t: Timer, r: seq<Slot<Timer>>)
    requires InStep(keys, h, due) && i < |keys| && t in due && due[t] == keys[i] && HeapOf(r, due - {t})
    ensures InStep(RemoveAt(keys, i), r, due - {t})
  {
    KeysAfterRemove(keys, i);
    KeysAfterErase(h, due, t, r);
    WithoutOne(multiset(keys), multiset(RemoveAt(keys, i)), keys[i]);
    WithoutOne(multiset(keys), multiset(Keys(r)), keys[i]);
  }

  /** Of the timers `was` of a queue in step with a list, those with the first `c` keys of the list have expired; what
      is left, `h` and `due`, is in step with the rest of the list. */
  ghost predicate Expired(keys: seq<int>, c: nat, was: map<Timer, int>, h: seq<Slot<Timer>>, due: map<Timer, int>,
                          timers: seq<Timer>) {
    && |timers| == c <= |keys| && InStep(keys[c..], h, due)
    && forall i :: 0 <= i < c ==> timers[i] in was && was[timers[i]] == keys[i]
  }

  /** `getExpired` on a queue in step with a list, whose `tick` takes the first `c` keys: the same expiries, one by
      one. */
  method ExpireQueue(q: Queue, ghost keys: seq<int>, ghost c: nat, now: int) returns (timers: seq<Timer>)
    requires q.HeapOk() && InStep(keys, q.timers, q.due)
    requires c <= |keys| && Splits(multiset(keys), now, keys[..c], multiset(keys[c..]))
    modifies q`timers, q`activeTimers, q`due
    ensures q.HeapOk() && Expired(keys, c, old(q.due), q.timers, q.due, timers)
  {
    ghost var h, due, taken := q.timers, q.due, [];
    timers, taken := q.GetExpired(now);
    SameExpiries(keys, c, now, h, due, q.timers, taken);
    StepExpire(keys, c, now, h, due, q.timers, taken);
    TakenExpiries(keys, c, now, h, due, q.timers, taken);
  }

  /** The same beside a list, which it leaves alone. */
  method ExpireBeside(l: L.TimerListMgr, q: Queue, ghost keys: seq<int>, ghost c: nat, now: int)
    returns (timers: seq<Timer>)
    requires q.HeapOk() && InStep(keys, q.timers, q.due)
    requires c <= |keys| && Splits(multiset(keys), now, keys[..c], multiset(keys[c..]))
    modifies q`timers, q`activeTimers, q`due
    ensures l.Valid() == old(l.Valid())
    ensures q.HeapOk() && Expired(keys, c, old(q.due), q.timers, q.due, timers)
  {
    timers := ExpireQueue(q, keys, c, now);
  }

  /** A list and a queue in step expire, at the same moment, nodes and timers with the same expiries in the same
      order, and stay in step. */
  method ExpireBoth(l: L.TimerListMgr, q: Queue, now: int) returns (nodes: seq<L.TimerNode>, timers: seq<Timer>)
    requires l.Valid() && q.HeapOk() && InStep(l.keys, q.timers, q.due)
    modifies l, l.nodes`prev, l.nodes`next, q`timers, q`activeTimers, q`due
    ensures |nodes| == |timers| <= |old(l.keys)|
    ensures nodes == old(l.nodes)[..|nodes|] && l.keys == old(l.keys)[|nodes|..]
    ensures forall i :: 0 <= i < |timers| ==> timers[i] in old(q.due) && old(q.due)[timers[i]] == old(l.keys)[i]
    ensures l.Valid() && q.HeapOk() && InStep(l.keys, q.timers, q.due)
  {
    ghost var keys := l.keys;
    nodes := l.Tick(now);
    timers := ExpireBeside(l, q, keys, |nodes|, now);
  }
}
