/**
 The binary heap behind TimerQueue.cpp: `push_heap`, `pop_heap` and `make_heap` with the
 comparator that puts the earliest expiry in front. A slot carries the expiry its timer has
 while it is in the heap.
 */
module MinHeap {

  datatype Slot<T> = Slot(timer: T, key: int)

  function Parent(i: int): int { (i - 1) / 2 }

  /** The heap order between the nodes below `n` whose parent is at `lo` or later. */
  ghost predicate HeapOn<T>(h: seq<Slot<T>>, lo: nat, n: nat) {
    n <= |h| && forall i, j :: lo <= i < j < n && i == Parent(j) ==> h[i].key <= h[j].key
  }

  ghost predicate IsHeap<T>(h: seq<Slot<T>>) { HeapOn(h, 0, |h|) }

  lemma {:induction false} FrontIsLeast<T>(h: seq<Slot<T>>, i: nat)
    requires IsHeap(h) && i < |h|
    ensures h[0].key <= h[i].key
  {
    if i > 0 {
      FrontIsLeast(h, Parent(i));
      assert h[Parent(i)].key <= h[i].key;
    }
  }

  lemma FrontIsLeastOf<T>(h: seq<Slot<T>>, s: Slot<T>)
    requires IsHeap(h) && s in multiset(h)
    ensures h != [] && h[0] in multiset(h) && h[0].key <= s.key
  {
    assert s in h;
    var i :| 0 <= i < |h| && h[i] == s;
    FrontIsLeast(h, i);
    assert h[0] in h;
  }

  function Swapped<T>(h: seq<T>, i: nat, j: nat): (r: seq<T>)
    requires i < |h| && j < |h|
    ensures |r| == |h| && r[i] == h[j] && r[j] == h[i]
    ensures forall k :: 0 <= k < |h| && k != i && k != j ==> r[k] == h[k]
  {
    h[i := h[j]][j := h[i]]
  }

  lemma SwapMultiset<T>(h: seq<T>, i: nat, j: nat)
    requires i < |h| && j < |h|
    ensures multiset(Swapped(h, i, j)) == multiset(h)
  {
  }

  /** Heap order except that `i` may precede its parent; its children stay behind that parent. */
  ghost predicate Rising<T>(h: seq<Slot<T>>, i: nat) {
    && i < |h|
    && (forall j :: 0 < j < |h| && j != i ==> h[Parent(j)].key <= h[j].key)
    && (i > 0 ==> forall j :: 0 < j < |h| && Parent(j) == i ==> h[Parent(i)].key <= h[j].key)
  }

  lemma Rise<T>(h: seq<Slot<T>>, i: nat)
    requires Rising(h, i) && i > 0 && h[i].key < h[Parent(i)].key
    ensures Rising(Swapped(h, i, Parent(i)), Parent(i))
  {
    var p := Parent(i);
    var r := Swapped(h, i, p);
    forall j | 0 < j < |r| && j != p ensures r[Parent(j)].key <= r[j].key {
      if Parent(j) == p { assert h[p].key <= h[j].key || j == i; }
      else if Parent(j) == i { assert h[p].key <= h[j].key; }
    }
    if p > 0 {
      forall j | 0 < j < |r| && Parent(j) == p ensures r[Parent(p)].key <= r[j].key {
        assert h[Parent(p)].key <= h[p].key;
        if j != i { assert h[p].key <= h[j].key; }
      }
    }
  }

  /** `push_heap`: the last element rises to its place. */
  method PushHeap<T>(h: seq<Slot<T>>) returns (r: seq<Slot<T>>)
    requires h != [] && HeapOn(h, 0, |h| - 1)
    ensures IsHeap(r) && multiset(r) == multiset(h) && |r| == |h|
  {
    r := h;
    var i := |h| - 1;
    while i > 0 && r[i].key < r[Parent(i)].key
      invariant 0 <= i && |r| == |h| && multiset(r) == multiset(h) && Rising(r, i)
    {
      Rise(r, i);
      SwapMultiset(r, i, Parent(i));
      r := Swapped(r, i, Parent(i));
      i := Parent(i);
    }
  }

  /** Heap order between the nodes of [lo, n) except that `i` may follow its children. */
  ghost predicate Sinking<T>(h: seq<Slot<T>>, lo: nat, n: nat, i: nat) {
    && lo <= i && n <= |h|
    && (forall j :: 0 < j < n && lo <= Parent(j) && Parent(j) != i ==> h[Parent(j)].key <= h[j].key)
    && (i > lo && lo <= Parent(i) ==> forall j :: 0 < j < n && Parent(j) == i ==> h[Parent(i)].key <= h[j].key)
  }

  lemma Sink<T>(h: seq<Slot<T>>, lo: nat, n: nat, i: nat, c: nat)
    requires Sinking(h, lo, n, i) && c < n && (c == 2 * i + 1 || c == 2 * i + 2) && h[c].key < h[i].key
    requires forall j :: 0 < j < n && Parent(j) == i ==> h[c].key <= h[j].key
    ensures Sinking(Swapped(h, i, c), lo, n, c)
  {
    var r := Swapped(h, i, c);
    assert Parent(c) == i;
    forall j | 0 < j < n && lo <= Parent(j) && Parent(j) != c ensures r[Parent(j)].key <= r[j].key {
      if j == i { assert h[Parent(i)].key <= h[c].key; }
      else if j == c { }
      else if Parent(j) == i { assert h[c].key <= h[j].key; }
      else { assert h[Parent(j)].key <= h[j].key; }
    }
    forall j | 0 < j < n && Parent(j) == c ensures r[Parent(c)].key <= r[j].key {
      assert h[Parent(j)].key <= h[j].key;
    }
  }

  lemma Settled<T>(h: seq<Slot<T>>, lo: nat, n: nat, i: nat)
    requires Sinking(h, lo, n, i)
    requires forall j :: 0 < j < n && Parent(j) == i ==> h[i].key <= h[j].key
    ensures HeapOn(h, lo, n)
  {
  }

  method EarlierChild<T>(h: seq<Slot<T>>, n: nat, i: nat) returns (c: nat)
    requires 2 * i + 1 < n <= |h|
    ensures c < n && (c == 2 * i + 1 || c == 2 * i + 2)
    ensures forall j :: 0 < j < n && Parent(j) == i ==> h[c].key <= h[j].key
  {
    c := 2 * i + 1;
    if c + 1 < n && h[c + 1].key < h[c].key { c := c + 1; }
  }

  /** The element at `lo` sinks to its place among the nodes below `n`. */
  method SiftDown<T>(h: seq<Slot<T>>, lo: nat, n: nat) returns (r: seq<Slot<T>>)
    requires HeapOn(h, lo + 1, n)
    ensures HeapOn(r, lo, n) && multiset(r) == multiset(h) && |r| == |h|
    ensures forall k :: n <= k < |h| ==> r[k] == h[k]
  {
    r := h;
    var i := lo;
    while 2 * i + 1 < n
      invariant |r| == |h| && multiset(r) == multiset(h) && Sinking(r, lo, n, i)
      invariant forall k :: n <= k < |h| ==> r[k] == h[k]
      decreases n - i
    {
      var c := EarlierChild(r, n, i);
      if r[i].key <= r[c].key {
        Settled(r, lo, n, i);
        return;
      }
      Sink(r, lo, n, i, c);
      SwapMultiset(r, i, c);
      r := Swapped(r, i, c);
      i := c;
    }
    Settled(r, lo, n, i);
  }

  /** `pop_heap`: the front goes to the back and the others form a heap. */
  method PopHeap<T>(h: seq<Slot<T>>) returns (r: seq<Slot<T>>)
    requires h != [] && IsHeap(h)
    ensures |r| == |h| && r[|r| - 1] == h[0] && HeapOn(r, 0, |r| - 1) && multiset(r) == multiset(h)
  {
    SwapMultiset(h, 0, |h| - 1);
    r := Swapped(h, 0, |h| - 1);
    r := SiftDown(r, 0, |h| - 1);
  }

  /** `make_heap` */
  method MakeHeap<T>(h: seq<Slot<T>>) returns (r: seq<Slot<T>>)
    ensures IsHeap(r) && multiset(r) == multiset(h) && |r| == |h|
  {
    r := h;
    var i := |h| / 2;
    while i > 0
      invariant 0 <= i <= |h| / 2 && |r| == |h| && multiset(r) == multiset(h) && HeapOn(r, i, |r|)
    {
      i := i - 1;
      r := SiftDown(r, i, |r|);
    }
  }

  // ------------------------------------------------- the keys of a heap

  function Keys<T>(h: seq<Slot<T>>): (keys: seq<int>)
    ensures |keys| == |h| && forall i :: 0 <= i < |h| ==> keys[i] == h[i].key
  {
    if h == [] then [] else Keys(h[..|h| - 1]) + [h[|h| - 1].key]
  }

  lemma MultisetWithout<T>(g: seq<T>, a: seq<T>, x: T, b: seq<T>)
    requires g == a + [x] + b
    ensures multiset(g) == multiset(a + b) + multiset{x}
  {
  }

  lemma KeysWithout<T>(g: seq<Slot<T>>, a: seq<Slot<T>>, s: Slot<T>, b: seq<Slot<T>>)
    requires g == a + [s] + b
    ensures multiset(Keys(g)) == multiset(Keys(a + b)) + multiset{s.key}
  {
    assert Keys(g) == Keys(a) + [s.key] + Keys(b);
    assert Keys(a + b) == Keys(a) + Keys(b);
    MultisetWithout(Keys(g), Keys(a), s.key, Keys(b));
  }

  /** Rearranging the slots rearranges the keys. */
  lemma {:induction false} KeysPermuted<T>(h: seq<Slot<T>>, g: seq<Slot<T>>)
    requires multiset(h) == multiset(g)
    ensures multiset(Keys(h)) == multiset(Keys(g))
  {
    assert |h| == |multiset(h)| == |multiset(g)| == |g|;
    if h != [] {
      var i := IndexIn(h, g);
      var a, s, b := g[..i], g[i], g[i + 1..];
      assert h == [] + [s] + h[1..] && g == a + [s] + b;
      assert [] + h[1..] == h[1..];
      KeysWithout(h, [], s, h[1..]);
      KeysWithout(g, a, s, b);
      MultisetWithout(h, [], s, h[1..]);
      MultisetWithout(g, a, s, b);
      CancelOne(multiset(h[1..]), multiset(a + b), s);
      KeysPermuted(h[1..], a + b);
    }
  }

  lemma IndexIn<T>(h: seq<T>, g: seq<T>) returns (i: nat)
    requires h != [] && multiset(h) == multiset(g)
    ensures i < |g| && g[i] == h[0]
  {
    assert h[0] in multiset(h);
    assert h[0] in g;
    i :| i < |g| && g[i] == h[0];
  }

  lemma CancelOne<T>(m: multiset<T>, n: multiset<T>, x: T)
    requires m + multiset{x} == n + multiset{x}
    ensures m == n
  {
    assert m == (m + multiset{x}) - multiset{x} && n == (n + multiset{x}) - multiset{x};
  }
}
