/**
 The heap of `TimerQueue` (TimerQueue.cpp) on values: a heap of slots that holds exactly one slot for each
 of a map of timers with their expiries, and what inserting, erasing and expiring do to the two.
 */
module TimerHeap {
  import opened TimerSchedule
  import opened TimerCallbacks
  import opened TimerSpec
  import opened MinHeap

  /** The slots `m` are exactly one for each timer of `due`, with its expiry. */
  ghost predicate SlotsOf(m: multiset<Slot<Timer>>, due: map<Timer, int>) {
    && (forall s :: s in m ==> s.timer in due && due[s.timer] == s.key && m[s] == 1)
    && (forall t: Timer :: t in due ==> Slot(t, due[t]) in m)
  }

  lemma SlotsAdd(m: multiset<Slot<Timer>>, due: map<Timer, int>, t: Timer, k: int)
    requires SlotsOf(m, due) && t !in due
    ensures SlotsOf(m + multiset{Slot(t, k)}, due[t := k])
  {
  }

  lemma SlotsRemove(m: multiset<Slot<Timer>>, due: map<Timer, int>, t: Timer)
    requires SlotsOf(m, due) && t in due
    ensures Slot(t, due[t]) in m && SlotsOf(m - multiset{Slot(t, due[t])}, due - {t})
  {
    assert m[Slot(t, due[t])] == 1;
  }

  lemma SlotIn(h: seq<Slot<Timer>>, due: map<Timer, int>, i: nat)
    requires SlotsOf(multiset(h), due) && i < |h|
    ensures h[i] in multiset(h) && h[i].timer in due && due[h[i].timer] == h[i].key
  {
    assert h[i] in h;
    assert multiset(h)[h[i]] > 0;
  }

  lemma TimerIn(h: seq<Slot<Timer>>, due: map<Timer, int>, t: Timer)
    requires SlotsOf(multiset(h), due) && t in due
    ensures exists k :: 0 <= k < |h| && h[k].timer == t
  {
    assert multiset(h)[Slot(t, due[t])] == 1;
    assert Slot(t, due[t]) in h;
  }

  /** The heap's front after one slot has been added. */
  lemma FrontAfterAdd(h: seq<Slot<Timer>>, s: Slot<Timer>, r: seq<Slot<Timer>>)
    requires IsHeap(h) && IsHeap(r) && multiset(r) == multiset(h) + multiset{s}
    ensures r != [] && r[0].key <= s.key
    ensures if h == [] || s.key < h[0].key then r[0].key == s.key else r[0].key == h[0].key
  {
    assert s in multiset(r);
    FrontIsLeastOf(r, s);
    if h != [] {
      assert h[0] in h;
      assert h[0] in multiset(h);
      FrontIsLeastOf(r, h[0]);
    }
    if r[0] != s {
      assert r[0] in multiset(h);
      FrontIsLeastOf(h, r[0]);
    }
  }

  /** The heap's front after one slot has been taken away. */
  lemma FrontAfterRemove(h: seq<Slot<Timer>>, s: Slot<Timer>, r: seq<Slot<Timer>>)
    requires IsHeap(h) && IsHeap(r) && s in multiset(h) && multiset(r) == multiset(h) - multiset{s} && r != []
    ensures h != [] && h[0].key <= r[0].key
  {
    assert r[0] in r;
    assert r[0] in multiset(r);
    assert r[0] in multiset(h);
    FrontIsLeastOf(h, r[0]);
  }

  /** `h` is a heap holding exactly the timers of `due`. */
  ghost predicate HeapOf(h: seq<Slot<Timer>>, due: map<Timer, int>) {
    IsHeap(h) && SlotsOf(multiset(h), due)
  }

  /** `push_back` and `push_heap` */
  method InsertSlot(h: seq<Slot<Timer>>, ghost due: map<Timer, int>, s: Slot<Timer>) returns (r: seq<Slot<Timer>>)
    requires HeapOf(h, due) && s.timer !in due
    ensures HeapOf(r, due[s.timer := s.key]) && r != []
    ensures r[0].key == if h == [] || s.key < h[0].key then s.key else h[0].key
  {
    AppendMultiset(h, s);
    r := PushHeap(h + [s]);
    FrontAfterAdd(h, s, r);
    SlotsAdd(multiset(h), due, s.timer, s.key);
  }

  lemma AppendMultiset<T>(h: seq<T>, s: T)
    ensures multiset(h + [s]) == multiset(h) + multiset{s}
  {
  }

  /** `std::find` */
  method Find(h: seq<Slot<Timer>>, timer: Timer) returns (i: nat)
    requires exists k :: 0 <= k < |h| && h[k].timer == timer
    ensures i < |h| && h[i].timer == timer
  {
    i := 0;
    while h[i].timer != timer
      invariant 0 <= i < |h| && forall k :: 0 <= k < i ==> h[k].timer != timer
      decreases |h| - i
    {
      i := i + 1;
    }
  }

  /** `find`, `erase` and `make_heap` */
  method EraseSlot(h: seq<Slot<Timer>>, ghost due: map<Timer, int>, timer: Timer) returns (r: seq<Slot<Timer>>)
    requires HeapOf(h, due) && timer in due
    ensures HeapOf(r, due - {timer})
    ensures r != [] ==> h != [] && h[0].key <= r[0].key
  {
    TimerIn(h, due, timer);
    var i := Find(h, timer);
    ErasedSlots(h, due, i);
    r := MakeHeap(h[..i] + h[i + 1..]);
    if r != [] { FrontAfterRemove(h, h[i], r); }
  }

  lemma ErasedSlots(h: seq<Slot<Timer>>, due: map<Timer, int>, i: nat)
    requires SlotsOf(multiset(h), due) && i < |h|
    ensures h[i] in multiset(h) && multiset(h[..i] + h[i + 1..]) == multiset(h) - multiset{h[i]}
    ensures SlotsOf(multiset(h[..i] + h[i + 1..]), due - {h[i].timer})
  {
    SlotIn(h, due, i);
    SlotsRemove(multiset(h), due, h[i].timer);
    ErasedMultiset(h, i);
  }

  lemma ErasedMultiset<T>(h: seq<T>, i: nat)
    requires i < |h|
    ensures multiset(h[..i] + h[i + 1..]) == multiset(h) - multiset{h[i]}
  {
    assert h == h[..i] + [h[i]] + h[i + 1..];
    MultisetWithout(h, h[..i], h[i], h[i + 1..]);
    WithoutOne(multiset(h), multiset(h[..i] + h[i + 1..]), h[i]);
  }

  lemma WithoutOne<T>(m: multiset<T>, n: multiset<T>, x: T)
    requires m == n + multiset{x}
    ensures n == m - multiset{x}
  {
  }

  function TimersOf(taken: seq<Slot<Timer>>): (ts: seq<Timer>)
    ensures |ts| == |taken| && forall i :: 0 <= i < |ts| ==> ts[i] == taken[i].timer
  {
    if taken == [] then [] else TimersOf(taken[..|taken| - 1]) + [taken[|taken| - 1].timer]
  }

  ghost predicate SlotsSorted(s: seq<Slot<Timer>>) { forall i, j :: 0 <= i < j < |s| ==> s[i].key <= s[j].key }

  /** The slots `taken` have left the heap `h`, in nondecreasing order of expiry and none later than `now`; `r` is what
      remains. */
  ghost predicate Taken(h: seq<Slot<Timer>>, now: int, r: seq<Slot<Timer>>, taken: seq<Slot<Timer>>) {
    && IsHeap(r) && multiset(h) == multiset(taken) + multiset(r)
    && SlotsSorted(taken) && (forall i :: 0 <= i < |taken| ==> taken[i].key <= now)
  }

  /** The loop of `getExpired`: slots leave the heap in nondecreasing order of expiry until the front is not due. */
  method TakeDue(h: seq<Slot<Timer>>, active: set<Timer>, now: int)
    returns (r: seq<Slot<Timer>>, rest: set<Timer>, expired: seq<Timer>, ghost taken: seq<Slot<Timer>>)
    requires IsHeap(h)
    ensures Taken(h, now, r, taken) && (r != [] ==> r[0].key > now)
    ensures expired == TimersOf(taken) && rest == active - Elements(expired)
  {
    r, rest, expired, taken := h, active, [], [];
    while r != [] && r[0].key <= now
      invariant Draining(h, active, now, r, rest, expired, taken)
      decreases |r|
    {
      var g := PopHeap(r);
      DrainOne(h, active, now, r, rest, expired, taken, g);
      var top := g[|g| - 1];
      taken := taken + [r[0]];
      r := g[..|g| - 1];
      rest := rest - {top.timer};
      expired := expired + [top.timer];
    }
  }

  ghost predicate Draining(h: seq<Slot<Timer>>, active: set<Timer>, now: int,
                           r: seq<Slot<Timer>>, rest: set<Timer>, expired: seq<Timer>, taken: seq<Slot<Timer>>) {
    && Taken(h, now, r, taken) && (taken != [] && r != [] ==> taken[|taken| - 1].key <= r[0].key)
    && expired == TimersOf(taken) && rest == active - Elements(expired)
  }

  /** One turn of the loop of `getExpired`, after `pop_heap` has produced `g`. */
  lemma DrainOne(h: seq<Slot<Timer>>, active: set<Timer>, now: int, r: seq<Slot<Timer>>, rest: set<Timer>,
                 expired: seq<Timer>, taken: seq<Slot<Timer>>, g: seq<Slot<Timer>>)
    requires Draining(h, active, now, r, rest, expired, taken) && r != [] && r[0].key <= now
    requires |g| == |r| && multiset(g) == multiset(r) && g[|g| - 1] == r[0] && HeapOn(g, 0, |g| - 1)
    ensures Draining(h, active, now, g[..|g| - 1], rest - {r[0].timer}, expired + [r[0].timer], taken + [r[0]])
  {
    TakeSlot(h, now, r, taken, g);
    TimersAppend(taken, r[0]);
    ElementsAppend(expired, r[0].timer);
  }

  lemma PoppedSlot(h: seq<Slot<Timer>>, g: seq<Slot<Timer>>)
    requires IsHeap(h) && h != [] && |g| == |h|
    requires multiset(g) == multiset(h) && g[|g| - 1] == h[0] && HeapOn(g, 0, |g| - 1)
    ensures IsHeap(g[..|g| - 1]) && multiset(h) == multiset(g[..|g| - 1]) + multiset{h[0]}
    ensures |g| > 1 ==> h[0].key <= g[0].key
  {
    var r := g[..|g| - 1];
    assert g == r + [h[0]] + [];
    assert r + [] == r;
    MultisetWithout(g, r, h[0], []);
    if |g| > 1 {
      WithoutOne(multiset(h), multiset(r), h[0]);
      FrontAfterRemove(h, h[0], r);
    }
  }

  lemma TakeSlot(h: seq<Slot<Timer>>, now: int, r: seq<Slot<Timer>>, taken: seq<Slot<Timer>>, g: seq<Slot<Timer>>)
    requires Taken(h, now, r, taken) && r != [] && r[0].key <= now
    requires taken != [] ==> taken[|taken| - 1].key <= r[0].key
    requires |g| == |r| && multiset(g) == multiset(r) && g[|g| - 1] == r[0] && HeapOn(g, 0, |g| - 1)
    ensures Taken(h, now, g[..|g| - 1], taken + [r[0]]) && (|g| > 1 ==> r[0].key <= g[0].key)
  {
    PoppedSlot(r, g);
  }

  lemma TimersAppend(taken: seq<Slot<Timer>>, top: Slot<Timer>)
    ensures TimersOf(taken + [top]) == TimersOf(taken) + [top.timer]
  {
    assert (taken + [top])[..|taken|] == taken;
  }

  /** What `getExpired` takes is, by expiry, exactly what is due, in order; the timers are distinct ones of the heap. */
  lemma TakenIsDue(h: seq<Slot<Timer>>, due: map<Timer, int>, now: int, r: seq<Slot<Timer>>, taken: seq<Slot<Timer>>)
    requires HeapOf(h, due) && Taken(h, now, r, taken) && (r != [] ==> r[0].key > now)
    ensures Splits(multiset(Keys(h)), now, Keys(taken), multiset(Keys(r)))
    ensures forall i :: 0 <= i < |taken| ==> taken[i].timer in due && due[taken[i].timer] == taken[i].key
    ensures forall i, j :: 0 <= i < j < |taken| ==> taken[i].timer != taken[j].timer
  {
    TakenTimers(multiset(h), due, taken, multiset(r));
    TakenKeys(h, taken, r);
    KeysLater(r, now);
    KeysDue(taken, now);
  }

  /** Of the timers in the heap, `expired` are exactly those due at `now`, once each, in nondecreasing order of
      expiry. */
  ghost predicate DueOnes(due: map<Timer, int>, now: int, expired: seq<Timer>) {
    && (forall i :: 0 <= i < |expired| ==> expired[i] in due && due[expired[i]] <= now)
    && (forall i, j :: 0 <= i < j < |expired| ==> expired[i] != expired[j] && due[expired[i]] <= due[expired[j]])
    && (forall t: Timer :: t in due && due[t] <= now ==> t in expired)
  }

  lemma TakenAreDueOnes(h: seq<Slot<Timer>>, due: map<Timer, int>, now: int, r: seq<Slot<Timer>>,
                          taken: seq<Slot<Timer>>)
    requires HeapOf(h, due) && Taken(h, now, r, taken) && (r != [] ==> r[0].key > now)
    ensures DueOnes(due, now, TimersOf(taken))
  {
    var expired := TimersOf(taken);
    TakenTimers(multiset(h), due, taken, multiset(r));
    forall t: Timer | t in due && due[t] <= now ensures t in expired {
      var i := DueIsTaken(h, due, now, r, taken, t);
      assert expired[i] == t;
    }
  }

  lemma DueIsTaken(h: seq<Slot<Timer>>, due: map<Timer, int>, now: int, r: seq<Slot<Timer>>, taken: seq<Slot<Timer>>,
                   t: Timer)
    returns (i: nat)
    requires HeapOf(h, due) && Taken(h, now, r, taken) && (r != [] ==> r[0].key > now) && t in due && due[t] <= now
    ensures i < |taken| && taken[i].timer == t
  {
    var s := Slot(t, due[t]);
    assert multiset(h)[s] == multiset(taken)[s] + multiset(r)[s];
    if s in multiset(r) { FrontIsLeastOf(r, s); }
    assert s in taken;
    i :| i < |taken| && taken[i] == s;
  }

  lemma KeysDue(taken: seq<Slot<Timer>>, now: int)
    requires SlotsSorted(taken) && forall i :: 0 <= i < |taken| ==> taken[i].key <= now
    ensures Sorted(Keys(taken)) && forall x :: x in Keys(taken) ==> x <= now
  {
  }

  lemma TakenKeys(h: seq<Slot<Timer>>, taken: seq<Slot<Timer>>, r: seq<Slot<Timer>>)
    requires multiset(h) == multiset(taken) + multiset(r)
    ensures multiset(Keys(h)) == multiset(Keys(taken)) + multiset(Keys(r))
  {
    assert multiset(taken + r) == multiset(taken) + multiset(r);
    KeysPermuted(h, taken + r);
    assert Keys(taken + r) == Keys(taken) + Keys(r);
  }

  lemma TakenTimers(m: multiset<Slot<Timer>>, due: map<Timer, int>, taken: seq<Slot<Timer>>,
                    rest: multiset<Slot<Timer>>)
    requires SlotsOf(m, due) && m == multiset(taken) + rest
    ensures forall i :: 0 <= i < |taken| ==>
              taken[i].timer in due && due[taken[i].timer] == taken[i].key && taken[i] !in rest
    ensures forall i, j :: 0 <= i < j < |taken| ==> taken[i].timer != taken[j].timer
  {
    forall i | 0 <= i < |taken|
      ensures taken[i].timer in due && due[taken[i].timer] == taken[i].key && taken[i] !in rest
              && multiset(taken)[taken[i]] == 1
    {
      assert taken[i] in taken;
      assert multiset(taken)[taken[i]] > 0;
      assert m[taken[i]] == multiset(taken)[taken[i]] + rest[taken[i]];
    }
    forall i, j | 0 <= i < j < |taken| ensures taken[i].timer != taken[j].timer {
      if taken[i].timer == taken[j].timer {
        OccursTwice(taken, i, j);
        assert false;
      }
    }
  }

  lemma OccursTwice<T>(s: seq<T>, i: nat, j: nat)
    requires i < j < |s| && s[i] == s[j]
    ensures multiset(s)[s[i]] >= 2
  {
    assert s == s[..j] + [s[j]] + s[j + 1..];
    assert s[i] in s[..j];
    assert multiset(s[..j])[s[i]] > 0;
  }

  lemma TakenLeft(m: multiset<Slot<Timer>>, due: map<Timer, int>, taken: seq<Slot<Timer>>, rest: multiset<Slot<Timer>>)
    requires SlotsOf(m, due) && m == multiset(taken) + rest
    ensures SlotsOf(rest, due - Elements(TimersOf(taken))) && Elements(TimersOf(taken)) <= due.Keys
  {
    TakenTimers(m, due, taken, rest);
    var gone := Elements(TimersOf(taken));
    forall s | s in rest ensures s.timer in due - gone && due[s.timer] == s.key && rest[s] == 1 {
      assert m[s] == multiset(taken)[s] + rest[s];
      if s.timer in gone { assert false; }
    }
    forall t: Timer | t in due - gone ensures Slot(t, due[t]) in rest {
      var s := Slot(t, due[t]);
      assert m[s] == multiset(taken)[s] + rest[s];
      if s in multiset(taken) { assert false; }
    }
  }

  lemma ElementsAppend<T>(s: seq<T>, x: T)
    ensures Elements(s + [x]) == Elements(s) + {x}
  {
  }

  /** Every timer known is in exactly one of heap, running batch, and deleted. */
  ghost predicate Parts<T>(known: set<T>, active: set<T>, batch: set<T>, deleted: set<T>) {
    known == active + batch + deleted && active !! batch && active !! deleted && batch !! deleted
  }

  lemma PartsAdd<T>(known: set<T>, active: set<T>, batch: set<T>, deleted: set<T>, t: T)
    requires Parts(known, active, batch, deleted) && t !in known
    ensures Parts(known + {t}, active + {t}, batch, deleted)
  {
  }

  lemma PartsCancel<T>(known: set<T>, active: set<T>, batch: set<T>, deleted: set<T>, t: T)
    requires Parts(known, active, batch, deleted) && t in active
    ensures Parts(known, active - {t}, batch, deleted + {t})
  {
  }

  lemma PartsExpire<T>(known: set<T>, active: set<T>, batch: set<T>, deleted: set<T>, gone: set<T>)
    requires Parts(known, active, batch, deleted) && batch == {} && gone <= active
    ensures Parts(known, active - gone, gone, deleted)
  {
  }

  lemma PartsReset<T>(known: set<T>, active: set<T>, batch: set<T>, deleted: set<T>, t: T)
    requires Parts(known, active, batch, deleted) && t in batch
    ensures Parts(known, active + {t}, batch - {t}, deleted) && Parts(known, active, batch - {t}, deleted + {t})
  {
  }

  lemma KeysLater(h: seq<Slot<Timer>>, now: int)
    requires IsHeap(h) && (h != [] ==> h[0].key > now)
    ensures forall x :: x in multiset(Keys(h)) ==> x > now
  {
    forall x | x in multiset(Keys(h)) ensures x > now {
      assert x in Keys(h);
      var i :| 0 <= i < |h| && Keys(h)[i] == x;
      FrontIsLeast(h, i);
    }
  }

  /** What becomes of the timers in the heap that are not due, by the contract of `handleRead`: cancelled by a
      callback, and then deleted, or still there with the same expiry. */
  lemma NotDueOnes(known: set<Timer>, due: map<Timer, int>, deleted: set<Timer>, expired: seq<Timer>,
                   callback: Timer -> seq<Op>, made: seq<Timer>, after: set<Timer>, now: int)
    requires DueOnes(due, now, expired) && Made([], made, AllOps(expired, callback), known, after)
    requires due.Keys <= known && due.Keys !! deleted
    ensures var s := AfterRead(due, deleted, expired, AllOps(expired, callback), made, now);
            forall t: Timer :: t in due && due[t] > now ==>
              if Cancels(expired, callback, t) then t !in s.due && t in s.deleted
              else t in s.due && s.due[t] == due[t]
  {
    var ops := AllOps(expired, callback);
    forall t: Timer | t in due && due[t] > now
      ensures var s := AfterRead(due, deleted, expired, ops, made, now);
              if Cancels(expired, callback, t) then t !in s.due && t in s.deleted
              else t in s.due && s.due[t] == due[t]
    {
      ReadKeeps(due, deleted, expired, ops, made, now, t);
      InAllOps(expired, callback, CancelTimer(t));
    }
  }

  /** One expired timer leaves what is still to be dealt with. */
  lemma RemainingBatch(expired: seq<Timer>, i: nat)
    requires i < |expired| && forall j, k :: 0 <= j < k < |expired| ==> expired[j] != expired[k]
    ensures Elements(expired[i..]) - {expired[i]} == Elements(expired[i + 1..])
  {
    assert expired[i..] == [expired[i]] + expired[i + 1..];
  }

  /** The running batch: the expired timers, each once. */
  ghost predicate IsBatch(expired: seq<Timer>, batch: set<Timer>) {
    batch == Elements(expired) && forall i, j :: 0 <= i < j < |expired| ==> expired[i] != expired[j]
  }
}
