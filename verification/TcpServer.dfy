/**
 `TcpServer` (TcpServer.cpp) as an object: the connection map, keyed by name, and the queues of its loops. Every
 method has the effect of the operation of the same name in ServerProtocol. A name may come back once its
 connection has left the map.
 */
module TcpServer {
  import opened ServerProtocol
  import P = ConnectionProtocol

  /** The name of a connection is erased, under which the map holds `d`, or nothing if `found` is false. */
  function EraseOnly(s: State, d: nat, found: bool): State
    requires d < |s.conns|
  {
    var e, n := s.conns[d], if found then 1 else 0;
    SetEntry(s, d, e.(inMap := false, erases := e.erases + n)).(missedErases := s.missedErases + 1 - n)
  }

  /** The same, and then the destruction of `c` is queued. */
  function EraseHeld(s: State, c: nat, d: nat, found: bool): State
    requires Exists(s, c) && d < |s.conns|
  {
    Push(EraseOnly(s, d, found), s.conns[c].loop, Destroy(c))
  }

  class Server {
    var loops: seq<Loop>
    var nextConnId: nat
    var names: seq<string>              // by connection
    var connections: map<string, nat>
    var conns: seq<Entry>
    ghost var missedErases: nat

    ghost function View(): State
      reads this
    {
      State(loops, conns, nextConnId, missedErases)
    }

    /** The map holds a connection under its name exactly as long as the entry says so. */
    ghost predicate Valid()
      reads this
    {
      && |loops| > 0 && |names| == |conns|
      && (forall c :: 0 <= c < |names| && conns[c].inMap ==> names[c] in connections && connections[names[c]] == c)
      && (forall name :: name in connections ==>
            connections[name] < |names| && names[connections[name]] == name && conns[connections[name]].inMap)
    }

    /** The connection that the map holds under the name of `c`, if any. */
    ghost function Holder(c: nat): nat
      requires c < |names|
      reads this
    {
      if names[c] in connections then connections[names[c]] else c
    }

    constructor (loopCount: nat)
      requires loopCount > 0
      ensures Valid() && Init(View()) && |loops| == loopCount
    {
      loops := seq(loopCount, _ => Loop(Polling, []));
      nextConnId, names, connections, conns := 1, [], map[], [];
      missedErases := 0;
    }

    method QueueInLoop(l: nat, j: Job)
      requires l < |loops|
      modifies this`loops
      ensures View() == Push(old(View()), l, j)
    {
      loops := loops[l := loops[l].(pending := loops[l].pending + [j])];
    }

    /** `newConnection`: the next loop in turn gets the connection; it is established at once in the base loop,
        and by a queued functor elsewhere. */
    method NewConnection(name: string)
      requires Valid() && name !in connections
      modifies this
      ensures Valid() && View() == ServerProtocol.NewConnection(old(View()))
      ensures names == old(names) + [name] && connections == old(connections)[name := |old(conns)|]
    {
      var ioLoop := 0;
      if |loops| > 1 {
        ioLoop := 1 + nextConnId % (|loops| - 1);
        nextConnId := nextConnId + 1;
      }
      var c := |conns|;
      conns := conns + [Entry(P.Fresh, ioLoop, true, 0, false, 0)];
      names := names + [name];
      connections := connections[name := c];
      if ioLoop == 0 {
        conns := conns[c := conns[c].(conn := P.ConnectEstablished(conns[c].conn), registered := true)];
      } else {
        QueueInLoop(ioLoop, Establish(c));
      }
    }

    /** `removeConnection`, the close callback, in whichever loop the connection was closed. */
    method RemoveConnection(c: nat, inBaseLoop: bool)
      requires Valid() && Exists(View(), c)
      modifies this
      ensures Valid()
      ensures !inBaseLoop ==> View() == CloseCallback(old(View()), 1, c)
      ensures inBaseLoop ==> View() == EraseHeld(old(View()), c, old(Holder(c)), old(names[c] in connections))
      ensures old(Holder(c)) == c ==> View() == CloseCallback(old(View()), if inBaseLoop then 0 else 1, c)
    {
      if inBaseLoop {
        var n := RemoveConnectionInLoop(c);
      } else {
        QueueInLoop(0, Remove(c));
      }
    }

    /** `removeConnectionInLoop`: `n` is what the erasure of the name returns, and the destruction is always queued,
        never run here. */
    method RemoveConnectionInLoop(c: nat) returns (n: nat)
      requires Valid() && Exists(View(), c)
      modifies this
      ensures Valid() && names == old(names) && connections == old(connections) - {names[c]}
      ensures n == (if names[c] in old(connections) then 1 else 0)
      ensures View() == EraseHeld(old(View()), c, old(Holder(c)), n == 1)
      ensures old(Holder(c)) == c ==>
                View() == RemoveInLoop(old(View()), c) && n == (if old(conns[c].inMap) then 1 else 0)
    {
      var loop := conns[c].loop;
      n := EraseName(c);
      QueueInLoop(loop, Destroy(c));
    }

    /** `connections_.erase(conn->name())` */
    method EraseName(c: nat) returns (n: nat)
      requires Valid() && c < |names|
      modifies this`connections, this`conns, this`missedErases
      ensures Valid() && connections == old(connections) - {names[c]}
      ensures n == (if names[c] in old(connections) then 1 else 0)
      ensures View() == EraseOnly(old(View()), old(Holder(c)), n == 1)
    {
      n := if names[c] in connections then 1 else 0;
      var d := if n == 1 then connections[names[c]] else c;
      connections := connections - {names[c]};
      conns := conns[d := conns[d].(inMap := false, erases := conns[d].erases + n)];
      missedErases := missedErases + 1 - n;
    }

    /** Running the queued removal: in a state the protocol can reach, the erasure finds exactly one entry. */
    method RunQueuedRemoval() returns (n: nat)
      requires Valid() && Inv(View()) && CanRun(View(), 0) && loops[0].phase.batch[0].Remove?
      modifies this
      ensures n == 1
      ensures Valid() && Inv(View()) && View() == Run(DropJob(old(View()), 0), 0, old(loops[0].phase.batch[0]))
    {
      RunRemoveInv(View(), 0);
      var c := loops[0].phase.batch[0].c;
      loops := loops[0 := loops[0].(phase := Calling(loops[0].phase.batch[1..]))];
      n := RemoveConnectionInLoop(c);
    }
  }
}
