/**
 Registration of channels with epoll: `Channel` (Channel.cpp) asks its loop's `EPollPoller`
 (EPollPoller.cpp) to keep the kernel's interest set in step with its event mask.
 */
module Poller {
  import opened Basics

  /** The event mask of a channel. `EPOLLIN` and `EPOLLPRI` are only ever set and cleared together, as
      the read event, and `EPOLLOUT` is the write event. */
  datatype Events = Events(reading: bool, writing: bool)

  const NONE_EVENT := Events(false, false)

  // ------------------------------------------------------- specification

  /** Everything recorded about one fd: the fields of its channel, whether the poller's channel map
      holds it, and the mask the kernel has for it. */
  datatype Registration = Registration(
    events: Events, index: int, addedToLoop: bool, mapped: bool, kernel: Option<Events>)

  datatype Request = EnableReading | DisableReading | EnableWriting | DisableWriting | DisableAll | Remove

  datatype Operation = CtlAdd | CtlMod | CtlDel

  /** `epoll_ctl`: adding a present fd fails, and so does modifying or deleting an absent one. */
  predicate ControlFails(kernel: Option<Events>, op: Operation) {
    if op.CtlAdd? then kernel.Some? else kernel.None?
  }

  function Control(kernel: Option<Events>, op: Operation, mask: Events): Option<Events> {
    if ControlFails(kernel, op) then kernel else if op.CtlDel? then None else Some(mask)
  }

  function Mask(events: Events, q: Request): Events {
    match q
    case EnableReading => events.(reading := true)
    case DisableReading => events.(reading := false)
    case EnableWriting => events.(writing := true)
    case DisableWriting => events.(writing := false)
    case _ => NONE_EVENT
  }

  /** The operation `updateChannel` issues for a channel whose mask has just been set. */
  function UpdateOperation(r: Registration): Operation {
    if r.index == -1 || r.index == 0 then CtlAdd else if r.events == NONE_EVENT then CtlDel else CtlMod
  }

  /** `updateChannel` */
  function Updated(r: Registration): Registration {
    var op := UpdateOperation(r);
    Registration(r.events, if op.CtlAdd? then 1 else if op.CtlDel? then 0 else r.index, r.addedToLoop,
                 r.mapped || r.index == -1, Control(r.kernel, op, r.events))
  }

  predicate UpdateFails(r: Registration) { ControlFails(r.kernel, UpdateOperation(r)) }

  /** `removeChannel` */
  function Removed(r: Registration): Registration {
    Registration(r.events, -1, r.addedToLoop, false,
                 if r.index == 1 then Control(r.kernel, CtlDel, r.events) else r.kernel)
  }

  predicate RemoveFails(r: Registration) { r.index == 1 && ControlFails(r.kernel, CtlDel) }

  /** The fields a channel sets itself before it turns to the poller. */
  function Prepared(r: Registration, q: Request): Registration {
    if q.Remove? then r.(addedToLoop := false) else r.(events := Mask(r.events, q), addedToLoop := true)
  }

  function Handle(r: Registration, q: Request): Registration {
    if q.Remove? then Removed(Prepared(r, q)) else Updated(Prepared(r, q))
  }

  predicate Fails(r: Registration, q: Request) {
    if q.Remove? then RemoveFails(Prepared(r, q)) else UpdateFails(Prepared(r, q))
  }

  const NewChannel := Registration(NONE_EVENT, -1, false, false, None)

  /** Index 1 means exactly that the kernel watches the fd, and then with the channel's own mask;
      the channel map holds exactly the channels with index 0 or 1. */
  predicate Consistent(r: Registration) {
    && (r.index == -1 || r.index == 0 || r.index == 1)
    && r.kernel == (if r.index == 1 then Some(r.events) else None)
    && (r.mapped <==> r.index != -1)
    && (r.addedToLoop <==> r.index != -1)
    && (r.index != 1 ==> r.events == NONE_EVENT)
  }

  /** `Channel::remove` asserts that the mask is empty. */
  predicate Allowed(r: Registration, q: Request) { q.Remove? ==> r.events == NONE_EVENT }

  lemma HandleConsistent(r: Registration, q: Request)
    requires Consistent(r) && Allowed(r, q)
    ensures Consistent(Handle(r, q)) && !Fails(r, q)
    ensures q.Remove? ==> Handle(r, q) == NewChannel
    ensures !q.Remove? ==> Handle(r, q).events == Mask(r.events, q)
  {
  }

  /** What the kernel reports on an fd. */
  predicate WatchesInput(r: Registration) { r.kernel.Some? && r.kernel.value.reading }

  predicate WatchesOutput(r: Registration) { r.kernel.Some? && r.kernel.value.writing }

  /** What each request does to what the kernel reports: it switches its own event and leaves the other as it was. */
  lemma RequestSwitches(r: Registration, q: Request)
    requires Consistent(r) && Allowed(r, q)
    ensures q.EnableReading? ==> WatchesInput(Handle(r, q)) && WatchesOutput(Handle(r, q)) == WatchesOutput(r)
    ensures q.DisableReading? ==> !WatchesInput(Handle(r, q)) && WatchesOutput(Handle(r, q)) == WatchesOutput(r)
    ensures q.EnableWriting? ==> WatchesOutput(Handle(r, q)) && WatchesInput(Handle(r, q)) == WatchesInput(r)
    ensures q.DisableWriting? ==> !WatchesOutput(Handle(r, q)) && WatchesInput(Handle(r, q)) == WatchesInput(r)
    ensures q.DisableAll? || q.Remove? ==> !WatchesInput(Handle(r, q)) && !WatchesOutput(Handle(r, q))
  {
  }

  /** The requests made on the channels of a loop, by fd. */
  ghost predicate RunOf(regs: map<int, Registration>, calls: seq<(int, Request)>, after: map<int, Registration>)
    decreases |calls|
  {
    if calls == [] then regs == after
    else
      var fd, q := calls[0].0, calls[0].1;
      fd in regs && Allowed(regs[fd], q) && RunOf(regs[fd := Handle(regs[fd], q)], calls[1..], after)
  }

  /** How many `epoll_ctl` calls of a run fail. */
  ghost function Failures(regs: map<int, Registration>, calls: seq<(int, Request)>): nat
    decreases |calls|
  {
    if calls == [] || calls[0].0 !in regs then 0
    else
      var fd, q := calls[0].0, calls[0].1;
      (if Fails(regs[fd], q) then 1 else 0) + Failures(regs[fd := Handle(regs[fd], q)], calls[1..])
  }

  /** For every sequence of requests on channels with distinct fds: no `epoll_ctl` fails, and poller,
      channels and kernel agree throughout. */
  lemma {:induction false} RegistrationInStep(regs: map<int, Registration>, calls: seq<(int, Request)>,
                                              after: map<int, Registration>)
    requires forall fd :: fd in regs ==> Consistent(regs[fd])
    requires RunOf(regs, calls, after)
    ensures Failures(regs, calls) == 0
    ensures after.Keys == regs.Keys && forall fd :: fd in after ==> Consistent(after[fd])
    decreases |calls|
  {
    if calls != [] {
      var fd, q := calls[0].0, calls[0].1;
      HandleConsistent(regs[fd], q);
      RegistrationInStep(regs[fd := Handle(regs[fd], q)], calls[1..], after);
    }
  }

  /** `disableAll` takes the fd out of the kernel's set exactly when it was in it; on a channel that
      is out already it puts the fd back with an empty mask. */
  lemma DisableAllUnregistersIff(r: Registration)
    requires Consistent(r)
    ensures Handle(r, DisableAll).kernel == None <==> r.kernel.Some?
    ensures r.kernel == None ==> Handle(r, DisableAll).kernel == Some(NONE_EVENT)
    ensures Handle(Handle(r, DisableAll), Remove).kernel == None
  {
    HandleConsistent(r, DisableAll);
  }

  // ------------------------------------------------------------- classes

  class Channel {
    const fd: int
    var events: Events
    var index: int
    var addedToLoop: bool

    constructor (fd: int)
      ensures this.fd == fd && events == NONE_EVENT && index == -1 && !addedToLoop
    {
      this.fd := fd;
      events, index, addedToLoop := NONE_EVENT, -1, false;
    }

    method EnableReading(poller: EPollPoller)
      requires poller.Valid() && this in poller.all
      modifies this, poller
      ensures poller.Valid()
      ensures poller.Did(this, Request.EnableReading, old(poller.RegistrationOf(this)), old(poller.failures))
      ensures poller.OthersKept(this)
    {
      events := events.(reading := true);
      Update(poller);
    }

    method DisableReading(poller: EPollPoller)
      requires poller.Valid() && this in poller.all
      modifies this, poller
      ensures poller.Valid()
      ensures poller.Did(this, Request.DisableReading, old(poller.RegistrationOf(this)), old(poller.failures))
      ensures poller.OthersKept(this)
    {
      events := events.(reading := false);
      Update(poller);
    }

    method EnableWriting(poller: EPollPoller)
      requires poller.Valid() && this in poller.all
      modifies this, poller
      ensures poller.Valid()
      ensures poller.Did(this, Request.EnableWriting, old(poller.RegistrationOf(this)), old(poller.failures))
      ensures poller.OthersKept(this)
    {
      events := events.(writing := true);
      Update(poller);
    }

    method DisableWriting(poller: EPollPoller)
      requires poller.Valid() && this in poller.all
      modifies this, poller
      ensures poller.Valid()
      ensures poller.Did(this, Request.DisableWriting, old(poller.RegistrationOf(this)), old(poller.failures))
      ensures poller.OthersKept(this)
    {
      events := events.(writing := false);
      Update(poller);
    }

    method DisableAll(poller: EPollPoller)
      requires poller.Valid() && this in poller.all
      modifies this, poller
      ensures poller.Valid()
      ensures poller.Did(this, Request.DisableAll, old(poller.RegistrationOf(this)), old(poller.failures))
      ensures poller.OthersKept(this)
    {
      events := NONE_EVENT;
      Update(poller);
    }

    method Update(poller: EPollPoller)
      requires poller.Valid() && this in poller.all
      modifies this`addedToLoop, this`index, poller
      ensures poller.Valid()
      ensures poller.RegistrationOf(this) == Updated(old(poller.RegistrationOf(this)).(addedToLoop := true))
      ensures poller.failures ==
                old(poller.failures)
                + (if UpdateFails(old(poller.RegistrationOf(this)).(addedToLoop := true)) then 1 else 0)
      ensures poller.OthersKept(this)
    {
      addedToLoop := true;
      poller.UpdateChannel(this);
    }

    /** `remove`, which asserts that no event is enabled any more. */
    method Unregister(poller: EPollPoller)
      requires poller.Valid() && this in poller.all && events == NONE_EVENT
      modifies this, poller
      ensures poller.Valid()
      ensures poller.Did(this, Request.Remove, old(poller.RegistrationOf(this)), old(poller.failures))
      ensures poller.OthersKept(this)
    {
      addedToLoop := false;
      poller.RemoveChannel(this);
    }
  }

  class EPollPoller {
    var channels: map<int, Channel>
    var kernel: map<int, Events>       // the interest set of the epoll instance
    ghost var failures: nat          // failed `epoll_ctl` calls
    ghost var all: set<Channel>      // the channels of this loop

    ghost predicate Valid()
      reads this
    {
      && (forall c, d :: c in all && d in all && c.fd == d.fd ==> c == d)
      && (forall fd :: fd in channels ==> channels[fd] in all && channels[fd].fd == fd)
    }

    ghost function RegistrationOf(c: Channel): Registration
      reads this, c
    {
      Registration(c.events, c.index, c.addedToLoop, c.fd in channels && channels[c.fd] == c,
                   if c.fd in kernel then Some(kernel[c.fd]) else None)
    }

    /** The effect of request `q` of channel `c`. */
    ghost predicate Did(c: Channel, q: Request, was: Registration, failed: nat)
      reads this, c
    {
      RegistrationOf(c) == Handle(was, q) && failures == failed + (if Fails(was, q) then 1 else 0)
    }

    /** The poller keeps its channels, and nothing changes for those other than `c`. */
    twostate predicate OthersKept(c: Channel)
      reads this, all
    {
      all == old(all) && forall d :: d in all && d != c ==> RegistrationOf(d) == old(RegistrationOf(d))
    }

    constructor ()
      ensures Valid() && all == {} && channels == map[] && kernel == map[] && failures == 0
    {
      channels, kernel, failures, all := map[], map[], 0, {};
    }

    /** A new channel, for an fd that no other channel of the loop has and that the kernel does not watch, belongs to
        the loop from now on. */
    ghost method Adopt(c: Channel)
      requires Valid() && c.fd !in kernel && forall d :: d in all ==> d.fd != c.fd
      requires c.events == NONE_EVENT && c.index == -1 && !c.addedToLoop
      modifies this`all
      ensures Valid() && all == old(all) + {c} && RegistrationOf(c) == NewChannel && Consistent(RegistrationOf(c))
      ensures forall d :: d in old(all) ==> RegistrationOf(d) == old(RegistrationOf(d))
    {
      all := all + {c};
    }

    /** A channel that has been removed can leave the loop, and its fd may come back. */
    ghost method Release(c: Channel)
      requires Valid() && c in all && c.index == -1 && Consistent(RegistrationOf(c))
      modifies this`all
      ensures Valid() && all == old(all) - {c} && c.fd !in kernel && forall d :: d in all ==> d.fd != c.fd
      ensures forall d :: d in all ==> RegistrationOf(d) == old(RegistrationOf(d))
    {
      all := all - {c};
    }

    method UpdateChannel(c: Channel)
      requires Valid() && c in all
      modifies this, c`index
      ensures Valid() && OthersKept(c)
      ensures RegistrationOf(c) == Updated(old(RegistrationOf(c)))
      ensures failures == old(failures) + (if UpdateFails(old(RegistrationOf(c))) then 1 else 0)
    {
      if c.index == -1 || c.index == 0 {
        if c.index == -1 {
          channels := channels[c.fd := c];
        }
        c.index := 1;
        Update(CtlAdd, c);
      } else {
        if c.events == NONE_EVENT {
          Update(CtlDel, c);
          c.index := 0;
        } else {
          Update(CtlMod, c);
        }
      }
    }

    method RemoveChannel(c: Channel)
      requires Valid() && c in all
      modifies this, c`index
      ensures Valid() && OthersKept(c)
      ensures RegistrationOf(c) == Removed(old(RegistrationOf(c)))
      ensures failures == old(failures) + (if RemoveFails(old(RegistrationOf(c))) then 1 else 0)
    {
      channels := channels - {c.fd};
      if c.index == 1 {
        Update(CtlDel, c);
      }
      c.index := -1;
    }

    /** `update`: one `epoll_ctl`. */
    method Update(op: Operation, c: Channel)
      modifies this`kernel, this`failures
      ensures forall fd :: fd != c.fd ==> (fd in kernel <==> fd in old(kernel))
      ensures forall fd :: fd != c.fd && fd in kernel ==> kernel[fd] == old(kernel)[fd]
      ensures var was := if c.fd in old(kernel) then Some(old(kernel)[c.fd]) else None;
              && (if c.fd in kernel then Some(kernel[c.fd]) else None) == Control(was, op, c.events)
              && failures == old(failures) + (if ControlFails(was, op) then 1 else 0)
    {
      match op {
        case CtlAdd =>
          if c.fd in kernel { failures := failures + 1; } else { kernel := kernel[c.fd := c.events]; }
        case CtlMod =>
          if c.fd in kernel { kernel := kernel[c.fd := c.events]; } else { failures := failures + 1; }
        case CtlDel =>
          if c.fd in kernel { kernel := kernel - {c.fd}; } else { failures := failures + 1; }
      }
    }

    predicate HasChannel(c: Channel)
      reads this
    {
      c.fd in channels && channels[c.fd] == c
    }
  }
}
