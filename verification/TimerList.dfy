/**
 The sorted doubly linked timer list of timer.cc. The list owns its nodes; `nodes` is the list
 as a sequence, from `head` to `tail`, and `keys` are the expiries by which it is sorted.
 */
module TimerList {
  import opened TimerSpec

  class TimerNode {
    var expire: int
    var prev: TimerNode?
    var next: TimerNode?

    constructor (expire: int)
      ensures this.expire == expire && prev == null && next == null
    {
      this.expire := expire;
      prev, next := null, null;
    }
  }

  class TimerListMgr {
    var head: TimerNode?
    var tail: TimerNode?
    ghost var nodes: seq<TimerNode>
    ghost var keys: seq<int>

    /** From position `lo` on, head, tail and the links of the nodes agree with the sequence; no node occurs twice. */
    ghost predicate LinkedFrom(lo: nat)
      reads this, nodes
    {
      && lo <= |nodes|
      && (forall i, j :: 0 <= i < j < |nodes| ==> nodes[i] != nodes[j])
      && (lo == |nodes| ==> head == null && tail == null)
      && (lo < |nodes| ==> head == nodes[lo] && nodes[lo].prev == null)
      && (lo < |nodes| ==> tail == nodes[|nodes| - 1] && tail.next == null)
      && (forall i, j :: lo <= i && j == i + 1 < |nodes| ==> nodes[i].next == nodes[j] && nodes[j].prev == nodes[i])
    }

    ghost predicate Linked()
      reads this, nodes
    {
      LinkedFrom(0)
    }

    ghost predicate KeysAgree()
      reads this, nodes
    {
      |keys| == |nodes| && forall i :: 0 <= i < |nodes| ==> nodes[i].expire == keys[i]
    }

    static lemma InsertAgrees(ns: seq<TimerNode>, ks: seq<int>, p: nat, n: TimerNode)
      requires |ns| == |ks| && p <= |ns| && forall i :: 0 <= i < |ns| ==> ns[i].expire == ks[i]
      ensures var ns', ks' := InsertAt(ns, p, n), InsertAt(ks, p, n.expire);
              forall i :: 0 <= i < |ns'| ==> ns'[i].expire == ks'[i]
    {
    }

    static lemma RemoveAgrees(ns: seq<TimerNode>, ks: seq<int>, k: nat)
      requires |ns| == |ks| && k < |ns| && forall i :: 0 <= i < |ns| && i != k ==> ns[i].expire == ks[i]
      ensures var ns', ks' := RemoveAt(ns, k), RemoveAt(ks, k);
              forall i :: 0 <= i < |ns'| ==> ns'[i].expire == ks'[i]
    {
    }

    ghost predicate Valid()
      reads this, nodes
    {
      Linked() && KeysAgree() && Sorted(keys)
    }

    constructor ()
      ensures Valid() && nodes == []
    {
      head, tail, nodes, keys := null, null, [], [];
    }

    /** The neighbours of the node at a position. */
    lemma Neighbours(k: nat)
      requires Linked() && k < |nodes|
      ensures nodes[k].prev == if k > 0 then nodes[k - 1] else null
      ensures nodes[k].next == if k + 1 < |nodes| then nodes[k + 1] else null
      ensures (head == nodes[k] <==> k == 0) && (tail == nodes[k] <==> k == |nodes| - 1)
    {
    }

    /** `add_timer`: the node goes behind all nodes that do not expire later. */
    method AddTimer(timer: TimerNode)
      requires Valid() && timer !in nodes && timer.prev == null && timer.next == null
      modifies this, nodes`prev, nodes`next, timer`prev, timer`next
      ensures Valid() && keys == Insert(old(keys), timer.expire)
      ensures nodes == InsertAt(old(nodes), Upper(old(keys), timer.expire), timer)
    {
      if head == null {
        LinkFirst(timer);
      } else if timer.expire < head.expire {
        LinkFront(timer);
      } else {
        AddAfterHead(timer);
      }
      RecordKey(timer, old(nodes));
    }

    /** The keys follow once the node is linked in. */
    ghost method RecordKey(timer: TimerNode, was: seq<TimerNode>)
      requires Linked() && Sorted(keys) && |was| == |keys| && forall i :: 0 <= i < |was| ==> was[i].expire == keys[i]
      requires nodes == InsertAt(was, Upper(keys, timer.expire), timer)
      modifies this`keys
      ensures Valid() && keys == Insert(old(keys), timer.expire)
    {
      InsertSorted(keys, timer.expire);
      InsertAgrees(was, keys, Upper(keys, timer.expire), timer);
      keys := Insert(keys, timer.expire);
    }

    /** The overload of `add_timer` that walks from the head. */
    method AddAfterHead(timer: TimerNode)
      requires Valid() && nodes != [] && timer !in nodes && head.expire <= timer.expire
      modifies this`head, this`tail, this`nodes, nodes`prev, nodes`next, timer`prev, timer`next
      ensures Linked() && nodes == InsertAt(old(nodes), Upper(keys, timer.expire), timer)
    {
      var prev, tmp := head, head.next;
      ghost var i := 0;
      while tmp != null && timer.expire >= tmp.expire
        invariant 0 <= i < |nodes| && prev == nodes[i] && tmp == if i + 1 < |nodes| then nodes[i + 1] else null
        invariant nodes == old(nodes) && Linked() && KeysAgree()
        invariant forall j :: 0 <= j <= i ==> keys[j] <= timer.expire
        decreases |nodes| - i
      {
        prev := tmp;
        tmp := tmp.next;
        i := i + 1;
      }
      UpperIs(keys, timer.expire, i + 1);
      if tmp != null {
        LinkBetween(timer, prev, tmp, i + 1);
      } else {
        LinkBack(timer, prev);
      }
    }

    method LinkFirst(timer: TimerNode)
      requires Valid() && nodes == [] && timer.prev == null && timer.next == null
      modifies this`head, this`tail, this`nodes
      ensures Linked() && nodes == InsertAt(old(nodes), Upper(keys, timer.expire), timer)
    {
      head := timer;
      tail := timer;
      nodes := InsertAt(nodes, 0, timer);
    }

    method LinkFront(timer: TimerNode)
      requires Valid() && nodes != [] && timer !in nodes && timer.prev == null && timer.expire < head.expire
      modifies this`head, this`nodes, nodes`prev, timer`next
      ensures Linked() && nodes == InsertAt(old(nodes), Upper(keys, timer.expire), timer)
    {
      UpperIs(keys, timer.expire, 0);
      timer.next := head;
      head.prev := timer;
      head := timer;
      nodes := InsertAt(nodes, 0, timer);
    }

    method LinkBack(timer: TimerNode, last: TimerNode)
      requires Linked() && nodes != [] && timer !in nodes && last == nodes[|nodes| - 1]
      modifies this`tail, this`nodes, nodes`next, timer`prev, timer`next
      ensures Linked() && nodes == InsertAt(old(nodes), |old(nodes)|, timer)
    {
      last.next := timer;
      timer.prev := last;
      timer.next := null;
      tail := timer;
      nodes := InsertAt(nodes, |nodes|, timer);
    }

    /** Links `timer` between two neighbours. */
    method LinkBetween(timer: TimerNode, prev: TimerNode, next: TimerNode, ghost p: nat)
      requires Linked() && timer !in nodes && 0 < p < |nodes| && prev == nodes[p - 1] && next == nodes[p]
      modifies this`nodes, prev`next, next`prev, timer`next, timer`prev
      ensures Linked() && nodes == InsertAt(old(nodes), p, timer)
    {
      ghost var was := nodes;
      prev.next := timer;
      timer.next := next;
      next.prev := timer;
      timer.prev := prev;
      nodes := InsertAt(nodes, p, timer);
      forall i, j | 0 <= i && j == i + 1 < |nodes| ensures nodes[i].next == nodes[j] && nodes[j].prev == nodes[i] {
        if j < p { assert nodes[i] == was[i] && nodes[j] == was[j]; }
        else if i > p { assert nodes[i] == was[i - 1] && nodes[j] == was[j - 1]; }
      }
    }

    /** The unlinking done by `del_timer` and `adjust_timer`: it covers a single node, the head, the tail and a node in
        the middle, and leaves everything as it is for a node that is in no list (`k` is -1). */
    method Detach(timer: TimerNode, ghost k: int)
      requires Linked()
      requires if k == -1 then timer !in nodes && timer.prev == null && timer.next == null
               else 0 <= k < |nodes| && nodes[k] == timer
      modifies this`head, this`tail, this`nodes, nodes`prev, nodes`next, timer`prev, timer`next
      ensures Linked() && nodes == if k == -1 then old(nodes) else RemoveAt(old(nodes), k)
      ensures timer.prev == null && timer.next == null && timer !in nodes
    {
      if k != -1 { Neighbours(k); }
      if timer.prev != null {
        timer.prev.next := timer.next;
      } else if head == timer {
        head := timer.next;
      }
      if timer.next != null {
        timer.next.prev := timer.prev;
      } else if tail == timer {
        tail := timer.prev;
      }
      timer.prev, timer.next := null, null;
      if k != -1 { RecordDetached(k); }
    }

    /** The links pass over the node at position `k`, and nothing else is amiss. */
    ghost predicate LinkedBut(k: nat)
      reads this, nodes
    {
      && k < |nodes| && (forall i, j :: 0 <= i < j < |nodes| ==> nodes[i] != nodes[j])
      && (forall i, j :: 0 <= i && j == i + 1 < |nodes| && i != k && j != k ==>
            nodes[i].next == nodes[j] && nodes[j].prev == nodes[i])
      && (0 < k < |nodes| - 1 ==> nodes[k - 1].next == nodes[k + 1] && nodes[k + 1].prev == nodes[k - 1])
      && EndsBut(k)
    }

    /** The two ends of such a list. */
    ghost predicate EndsBut(k: nat)
      requires k < |nodes|
      reads this, nodes
    {
      var rest := RemoveAt(nodes, k);
      if rest == [] then head == null && tail == null
      else && head == rest[0] && rest[0].prev == null
           && tail == rest[|rest| - 1] && rest[|rest| - 1].next == null
    }

    /** The sequence follows once the node is unlinked. */
    ghost method RecordDetached(k: nat)
      requires LinkedBut(k)
      modifies this`nodes
      ensures Linked() && nodes == RemoveAt(old(nodes), k) && old(nodes)[k] !in nodes
    {
      ghost var was := nodes;
      nodes := RemoveAt(nodes, k);
      forall i, j | 0 <= i && j == i + 1 < |nodes| ensures nodes[i].next == nodes[j] && nodes[j].prev == nodes[i] {
        if j < k { assert nodes[i] == was[i] && nodes[j] == was[j]; }
        else if i >= k { assert nodes[i] == was[i + 1] && nodes[j] == was[j + 1]; }
      }
    }

    /** `del_timer` removes exactly this node; deleting a node that is in no list changes nothing. */
    method DelTimer(timer: TimerNode, ghost k: int)
      requires Valid()
      requires if k == -1 then timer !in nodes && timer.prev == null && timer.next == null
               else 0 <= k < |nodes| && nodes[k] == timer
      modifies this, nodes`prev, nodes`next, timer`prev, timer`next
      ensures Valid() && timer !in nodes && timer.prev == null && timer.next == null
      ensures nodes == if k == -1 then old(nodes) else RemoveAt(old(nodes), k)
      ensures keys == if k == -1 then old(keys) else RemoveAt(old(keys), k)
    {
      Detach(timer, k);
      DropKey(old(nodes), k);
    }

    /** The keys follow once the node at position `k` of `was` is detached. */
    ghost method DropKey(was: seq<TimerNode>, k: int)
      requires Linked() && Sorted(keys) && |was| == |keys| && -1 <= k < |was|
      requires nodes == if k == -1 then was else RemoveAt(was, k)
      requires forall i :: 0 <= i < |was| && i != k ==> was[i].expire == keys[i]
      modifies this`keys
      ensures Valid() && keys == if k == -1 then old(keys) else RemoveAt(old(keys), k)
    {
      if k != -1 {
        RemoveAgrees(was, keys, k);
        RemoveSorted(keys, k);
        keys := RemoveAt(keys, k);
      }
    }

    /** The neighbours of node `k` are in order with it. */
    ghost predicate InPlace(k: int)
      requires 0 <= k < |nodes|
      reads this, nodes
    {
      (k + 1 < |nodes| ==> nodes[k].expire <= nodes[k + 1].expire) && (k > 0 ==> nodes[k - 1].expire <= nodes[k].expire)
    }

    /** The list was valid until the expiry of node `k` changed; -1 stands for a node that is in no list. */
    ghost predicate ValidBut(timer: TimerNode, k: int)
      reads this, nodes, timer
    {
      && Linked() && Sorted(keys) && |nodes| == |keys|
      && (forall i :: 0 <= i < |nodes| && i != k ==> nodes[i].expire == keys[i])
      && if k == -1 then timer !in nodes && timer.prev == null && timer.next == null
         else 0 <= k < |nodes| && nodes[k] == timer
    }

    /** `adjust_timer`, after the expiry of the node has changed, in either direction: the list is ordered again; the
        node has moved, behind its equals, only if it was out of order with a neighbour. A node in no list stays out. */
    method AdjustTimer(timer: TimerNode, ghost k: int)
      requires ValidBut(timer, k)
      modifies this, nodes`prev, nodes`next
      ensures Valid()
      ensures k == -1 ==> nodes == old(nodes) && keys == old(keys)
      ensures k != -1 && old(InPlace(k)) ==> nodes == old(nodes) && keys == old(keys)[k := timer.expire]
      ensures k != -1 && !old(InPlace(k)) ==>
                keys == Insert(RemoveAt(old(keys), k), timer.expire)
                && nodes == InsertAt(RemoveAt(old(nodes), k), Upper(RemoveAt(old(keys), k), timer.expire), timer)
    {
      if k != -1 { Neighbours(k); }
      var afterOk := timer.next == null || timer.expire <= timer.next.expire;
      var beforeOk := timer.prev == null || timer.prev.expire <= timer.expire;
      if afterOk && beforeOk {
        assert k == -1 || InPlace(k);
        RecordExpire(timer, k);
      } else {
        assert k != -1 && !InPlace(k);
        MoveTimer(timer, k);
      }
    }

    /** The node stays, and the keys follow. */
    ghost method RecordExpire(timer: TimerNode, k: int)
      requires ValidBut(timer, k) && (k != -1 ==> InPlace(k))
      modifies this`keys
      ensures Valid() && keys == if k == -1 then old(keys) else old(keys)[k := timer.expire]
    {
      if k != -1 { keys := keys[k := timer.expire]; }
    }

    /** The node is taken out and put in again. */
    method MoveTimer(timer: TimerNode, ghost k: nat)
      requires ValidBut(timer, k)
      modifies this, nodes`prev, nodes`next
      ensures Valid() && keys == Insert(RemoveAt(old(keys), k), timer.expire)
      ensures nodes == InsertAt(RemoveAt(old(nodes), k), Upper(RemoveAt(old(keys), k), timer.expire), timer)
    {
      DetachChanged(timer, k);
      AddTimer(timer);
    }

    /** Takes the changed node out: what is left is a valid list. */
    method DetachChanged(timer: TimerNode, ghost k: nat)
      requires ValidBut(timer, k)
      modifies this, nodes`prev, nodes`next
      ensures Valid() && nodes == RemoveAt(old(nodes), k) && keys == RemoveAt(old(keys), k)
      ensures timer.prev == null && timer.next == null && timer !in nodes
      ensures forall n: TimerNode :: n in nodes ==> n in old(nodes)
    {
      Detach(timer, k);
      DropKey(old(nodes), k);
    }

    static lemma RemoveSorted(keys: seq<int>, k: nat)
      requires Sorted(keys) && k < |keys|
      ensures Sorted(RemoveAt(keys, k))
    {
    }

    /** The detaching part of `tick`: exactly the due nodes leave the list, from the front and in order. */
    method Tick(cur: int) returns (expired: seq<TimerNode>)
      requires Valid()
      modifies this, nodes`prev, nodes`next
      ensures Valid() && |expired| <= |old(nodes)|
      ensures expired == old(nodes)[..|expired|] && nodes == old(nodes)[|expired|..]
      ensures forall i :: 0 <= i < |expired| ==> expired[i].prev == null && expired[i].next == null
      ensures keys == old(keys)[|expired|..]
      ensures Splits(multiset(old(keys)), cur, old(keys)[..|expired|], multiset(keys))
    {
      expired := [];
      ghost var c := 0;
      while head != null && head.expire <= cur
        invariant nodes == old(nodes) && keys == old(keys) && LinkedFrom(c) && |expired| == c
        invariant forall i :: 0 <= i < c ==> expired[i] == nodes[i]
        invariant forall i :: 0 <= i < c ==> keys[i] <= cur && nodes[i].prev == null && nodes[i].next == null
        decreases |nodes| - c
      {
        var del := DetachHead(c);
        expired := expired + [del];
        c := c + 1;
      }
      DropDetached(c, cur);
    }

    /** One turn of the loop of `tick`, when the nodes before position `c` are detached already. */
    method DetachHead(ghost c: nat) returns (del: TimerNode)
      requires LinkedFrom(c) && head != null
      modifies this`head, this`tail, nodes`prev, nodes`next
      ensures LinkedFrom(c + 1) && del == nodes[c] && del.prev == null && del.next == null
      ensures forall i :: 0 <= i < c ==> nodes[i].prev == old(nodes[i].prev) && nodes[i].next == old(nodes[i].next)
    {
      del := head;
      head := head.next;
      if head != null {
        assert head == nodes[c + 1];
        head.prev := null;
      } else {
        tail := null;
      }
      del.prev, del.next := null, null;
    }

    /** The sequence follows once the nodes before position `c`, the due ones, are detached. */
    ghost method DropDetached(c: nat, cur: int)
      requires LinkedFrom(c) && KeysAgree() && Sorted(keys)
      requires (forall i :: 0 <= i < c ==> keys[i] <= cur) && (head != null ==> head.expire > cur)
      modifies this`nodes, this`keys
      ensures Valid() && nodes == old(nodes)[c..] && keys == old(keys)[c..]
      ensures Splits(multiset(old(keys)), cur, old(keys)[..c], multiset(keys))
    {
      DropNodes(c);
      DropKeys(c, cur);
    }

    ghost method DropKeys(c: nat, cur: int)
      requires Linked() && Sorted(keys) && c <= |keys| == |nodes| + c
      requires forall i :: 0 <= i < |nodes| ==> nodes[i].expire == keys[c + i]
      requires (forall i :: 0 <= i < c ==> keys[i] <= cur) && (c < |keys| ==> keys[c] > cur)
      modifies this`keys
      ensures Valid() && keys == old(keys)[c..]
      ensures Splits(multiset(old(keys)), cur, old(keys)[..c], multiset(keys))
    {
      SplitKeys(keys, c, cur);
      keys := keys[c..];
    }

    ghost method DropNodes(c: nat)
      requires LinkedFrom(c)
      modifies this`nodes
      ensures Linked() && nodes == old(nodes)[c..]
    {
      ghost var was := nodes;
      nodes := nodes[c..];
      forall i, j | 0 <= i && j == i + 1 < |nodes| ensures nodes[i].next == nodes[j] && nodes[j].prev == nodes[i] {
        assert nodes[i] == was[i + c] && nodes[j] == was[j + c];
      }
    }

    static lemma SplitKeys(keys: seq<int>, c: nat, cur: int)
      requires Sorted(keys) && c <= |keys|
      requires (forall i :: 0 <= i < c ==> keys[i] <= cur) && (c < |keys| ==> keys[c] > cur)
      ensures Splits(multiset(keys), cur, keys[..c], multiset(keys[c..])) && Sorted(keys[c..])
    {
      assert keys == keys[..c] + keys[c..];
      assert forall x :: x in keys[c..] ==> x > cur;
    }
  }
}
