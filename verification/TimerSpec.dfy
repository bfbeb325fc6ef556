/**
 What both timer managers do, on expiry times alone: a collection of timers splits at a moment
 `now` into the due ones, in nondecreasing order of expiry, and the others.
 */
module TimerSpec {

  predicate Sorted(s: seq<int>) { forall i, j :: 0 <= i < j < |s| ==> s[i] <= s[j] }

  /** Of the expiries `all`, exactly those up to `now` are in `due`, in order, and `rest` is what remains. */
  predicate Splits(all: multiset<int>, now: int, due: seq<int>, rest: multiset<int>) {
    && all == multiset(due) + rest
    && Sorted(due)
    && (forall x :: x in due ==> x <= now)
    && (forall x :: x in rest ==> x > now)
  }

  lemma HeadIsLeast(s: seq<int>, x: int)
    requires Sorted(s) && x in multiset(s)
    ensures s != [] && s[0] in multiset(s) && s[0] <= x
  {
    assert x in s;
    assert s[0] in s;
  }

  lemma TailMultiset(s: seq<int>)
    requires s != []
    ensures multiset(s[1..]) == multiset(s) - multiset{s[0]}
  {
    assert s == [s[0]] + s[1..];
  }

  lemma SameLeast(s: seq<int>, t: seq<int>)
    requires Sorted(s) && Sorted(t) && multiset(s) == multiset(t) && s != [] && t != []
    ensures s[0] == t[0]
  {
    HeadIsLeast(s, s[0]);
    HeadIsLeast(t, s[0]);
    HeadIsLeast(s, t[0]);
  }

  lemma {:induction false} SortedUnique(s: seq<int>, t: seq<int>)
    requires Sorted(s) && Sorted(t) && multiset(s) == multiset(t)
    ensures s == t
  {
    assert |s| == |multiset(s)| == |multiset(t)| == |t|;
    if s != [] {
      SameLeast(s, t);
      TailMultiset(s);
      TailMultiset(t);
      SortedUnique(s[1..], t[1..]);
      SameHeadAndTail(s, t);
    }
  }

  lemma SameHeadAndTail(s: seq<int>, t: seq<int>)
    requires s != [] && t != [] && s[0] == t[0] && s[1..] == t[1..]
    ensures s == t
  {
    assert s == [s[0]] + s[1..] && t == [t[0]] + t[1..];
  }

  /** The split is determined by the expiries and the moment: any two managers agree on it. */
  lemma SplitUnique(all: multiset<int>, now: int, d1: seq<int>, r1: multiset<int>, d2: seq<int>, r2: multiset<int>)
    requires Splits(all, now, d1, r1) && Splits(all, now, d2, r2)
    ensures d1 == d2 && r1 == r2
  {
    forall x ensures multiset(d1)[x] == multiset(d2)[x] && r1[x] == r2[x] {
      assert all[x] == multiset(d1)[x] + r1[x] && all[x] == multiset(d2)[x] + r2[x];
      if x <= now {
        assert x !in r1 && x !in r2;
      } else {
        assert x !in d1 && x !in d2;
        assert x !in multiset(d1) && x !in multiset(d2);
      }
    }
    SortedUnique(d1, d2);
  }

  /** How many leading keys do not exceed `k`: where a stable insertion goes. */
  function Upper(keys: seq<int>, k: int): (p: nat)
    ensures p <= |keys| && (p < |keys| ==> k < keys[p]) && forall i :: 0 <= i < p ==> keys[i] <= k
  {
    if keys == [] || k < keys[0] then 0 else 1 + Upper(keys[1..], k)
  }

  lemma {:induction false} UpperIs(keys: seq<int>, k: int, p: nat)
    requires p <= |keys| && (p < |keys| ==> k < keys[p]) && forall i :: 0 <= i < p ==> keys[i] <= k
    ensures Upper(keys, k) == p
  {
    if p > 0 { UpperIs(keys[1..], k, p - 1); }
  }

  function InsertAt<T>(s: seq<T>, p: nat, x: T): (r: seq<T>)
    requires p <= |s|
    ensures |r| == |s| + 1 && r[p] == x
    ensures forall i :: 0 <= i < p ==> r[i] == s[i]
    ensures forall i :: p < i < |r| ==> r[i] == s[i - 1]
  {
    s[..p] + [x] + s[p..]
  }

  function RemoveAt<T>(s: seq<T>, p: nat): (r: seq<T>)
    requires p < |s|
    ensures |r| == |s| - 1
    ensures forall i :: 0 <= i < p ==> r[i] == s[i]
    ensures forall i :: p <= i < |r| ==> r[i] == s[i + 1]
  {
    s[..p] + s[p + 1..]
  }

  /** Stable insertion: behind everything that is not greater. */
  function Insert(keys: seq<int>, k: int): seq<int> { InsertAt(keys, Upper(keys, k), k) }

  lemma InsertSorted(keys: seq<int>, k: int)
    requires Sorted(keys)
    ensures Sorted(Insert(keys, k))
  {
    var p, r := Upper(keys, k), Insert(keys, k);
    forall i, j | 0 <= i < j < |r| ensures r[i] <= r[j] {
      if j == p { assert r[i] == keys[i]; }
      else if i == p { assert r[j] == keys[j - 1] && keys[p] <= keys[j - 1]; }
    }
  }

  lemma InsertMultiset(keys: seq<int>, k: int)
    ensures multiset(Insert(keys, k)) == multiset(keys) + multiset{k}
  {
    var p := Upper(keys, k);
    assert keys == keys[..p] + keys[p..];
  }
}
