/**
 Every message that `send` takes (TcpConnection.cpp), and SHUT_WR: where a message is at each moment of a
 run, and exactly when SHUT_WR is issued before every message taken has been written.
 */
module ShutdownProtocol {
  import Basics
  import opened ConnectionProtocol

  /** The messages queued on the loop. */
  function Queued(jobs: seq<Job>): multiset<string> {
    if jobs == [] then multiset{} else MessageOf(jobs[0]) + Queued(jobs[1..])
  }

  function MessageOf(job: Job): multiset<string> { if job.SendJob? then multiset{job.message} else multiset{} }

  lemma {:induction false} QueuedAppend(jobs: seq<Job>, job: Job)
    ensures Queued(jobs + [job]) == Queued(jobs) + MessageOf(job)
  {
    if jobs == [] {
      assert jobs + [job] == [job] && [job][1..] == [];
    } else {
      assert (jobs + [job])[0] == jobs[0] && (jobs + [job])[1..] == jobs[1..] + [job];
      QueuedAppend(jobs[1..], job);
    }
  }

  function Concat(messages: seq<string>): string {
    if messages == [] then "" else Concat(messages[..|messages| - 1]) + messages[|messages| - 1]
  }

  /** The messages taken that the loop has not come to: queued, or in flight between the check of another thread's
      `send` and its push. */
  function Pending(c: Conn): multiset<string> { Queued(c.jobs) + c.flying.sends }

  /** Each message taken is appended, pending or dropped; what was accepted are the messages appended, one after
      another; and after a SHUT_WR that came with everything written it stays so. */
  predicate Kept(c: Conn) {
    && c.messages.taken == multiset(c.messages.appended) + Pending(c) + c.messages.dropped
    && c.accepted == Concat(c.messages.appended)
    && (c.messages.dropped != multiset{} ==> c.state.Disconnected?)
    && (c.state.Connecting? || c.state.Connected? ==> !c.shutWrite && ShutdownJob !in c.jobs && c.flying.shutdowns == 0)
    && (c.shutWrite && !c.shutEarly ==> AllWritten(c))
  }

  /** What every operation does to messages and to SHUT_WR. */
  predicate Tracks(c: Conn, d: Conn) {
    && Kept(d)
    && (!c.state.Disconnected? && Pending(c) == multiset{} ==> d.shutEarly == c.shutEarly)
    && (c.shutWrite ==> d.shutWrite)
    && (c.shutWrite && !c.shutEarly ==>
          && !d.shutEarly && d.messages.taken == c.messages.taken
          && d.messages.appended == c.messages.appended && d.written == c.written)
  }

  lemma NothingLeft(c: Conn)
    requires Kept(c)
    ensures AllWritten(c) <==> Pending(c) == multiset{} && c.messages.dropped == multiset{} && c.output == ""
  {
    if c.messages.taken == multiset(c.messages.appended) {
      forall m ensures Pending(c)[m] == 0 && c.messages.dropped[m] == 0 {
        assert c.messages.taken[m] == multiset(c.messages.appended)[m] + Pending(c)[m] + c.messages.dropped[m];
      }
    }
  }

  /** Exactly when `shutdownInLoop` issues SHUT_WR before every message taken has been written: when nothing is being
      written and a message is still queued or in flight, or the connection has been closed with output left or a
      message dropped. */
  lemma ShutdownEarlyIff(c: Conn)
    requires Inv(c) && Kept(c) && !c.shutEarly
    ensures ShutdownInLoop(c).shutEarly <==>
            !c.writing && (Queued(c.jobs) != multiset{} || c.flying.sends != multiset{}
                           || (c.state.Disconnected? && (c.output != "" || c.messages.dropped != multiset{})))
  {
    NothingLeft(c);
  }

  lemma ShutdownTracks(c: Conn)
    requires Inv(c) && Kept(c) && (c.state.Disconnecting? || c.state.Disconnected?)
    ensures Tracks(c, ShutdownInLoop(c)) && ShutdownInLoop(c).jobs == c.jobs
  {
    NothingLeft(c);
  }

  lemma AppendTracks(c: Conn, message: string)
    requires Inv(c) && Kept(c) && c.state.Connected?
    ensures Tracks(c, SendInLoop(Take(c, message), message))
  {
    var d := SendInLoop(Take(c, message), message);
    AppendedIs(c.messages.appended, message);
    assert d.messages.appended == c.messages.appended + [message];
  }

  /** The check of another thread's `send`. */
  lemma CheckTracks(c: Conn, message: string)
    requires Inv(c) && Kept(c) && c.state.Connected?
    ensures Tracks(c, Take(c, message).(flying := c.flying.With(SendJob(message))))
  {
    var m := c.messages;
    Taken(m.taken, multiset(m.appended), Queued(c.jobs), c.flying.sends, m.dropped, message);
  }

  lemma Taken(taken: multiset<string>, appended: multiset<string>, queued: multiset<string>, sends: multiset<string>,
              dropped: multiset<string>, message: string)
    requires taken == appended + (queued + sends) + dropped
    ensures taken + multiset{message} == appended + (queued + (sends + multiset{message})) + dropped
  {
  }

  /** The push: a message in flight is queued, and still pending. */
  lemma PushTracks(c: Conn, job: Job)
    requires Inv(c) && Kept(c) && c.flying.Has(job)
    ensures Tracks(c, PushJob(c, job)) && Pending(PushJob(c, job)) == Pending(c)
  {
    PushPending(c, job);
    assert forall j :: j in c.jobs + [job] ==> j in c.jobs || j == job;
  }

  lemma PushPending(c: Conn, job: Job)
    requires c.flying.Has(job)
    ensures Pending(PushJob(c, job)) == Pending(c)
  {
    QueuedAppend(c.jobs, job);
    if job.SendJob? { MovedTo(Queued(c.jobs), c.flying.sends, job.message); }
  }

  lemma MovedTo(queued: multiset<string>, sends: multiset<string>, message: string)
    requires message in sends
    ensures (queued + multiset{message}) + (sends - multiset{message}) == queued + sends
  {
  }

  lemma ShutdownCallTracks(c: Conn, inLoop: bool)
    requires Inv(c) && Kept(c)
    ensures Tracks(c, Call(c, Shutdown, inLoop)) && Pending(Call(c, Shutdown, inLoop)) == Pending(c)
  {
    QueuedAppend(c.jobs, ShutdownJob);
    if c.state.Connected? && inLoop { ShutdownTracks(c.(state := Disconnecting)); }
  }

  lemma ForceCloseTracks(c: Conn, inLoop: bool)
    requires Inv(c) && Kept(c)
    ensures Tracks(c, Call(c, ForceClose, inLoop)) && Pending(Call(c, ForceClose, inLoop)) == Pending(c)
  {
    if Open(c) {
      if inLoop { ForceCloseQueued(c); } else { ForceCloseInFlight(c); }
    }
  }

  lemma ForceCloseQueued(c: Conn)
    requires Kept(c) && Open(c)
    ensures var d := c.(state := Disconnecting, jobs := c.jobs + [ForceCloseJob]);
            Tracks(c, d) && Pending(d) == Pending(c)
  {
    QueuedAppend(c.jobs, ForceCloseJob);
  }

  lemma ForceCloseInFlight(c: Conn)
    requires Kept(c) && Open(c)
    ensures var d := c.(state := Disconnecting, flying := c.flying.With(ForceCloseJob));
            Tracks(c, d) && Pending(d) == Pending(c)
  {
  }

  /** A call in the loop appends the message it takes; another thread's leaves it in flight. */
  lemma CallTracks(c: Conn, call: UserCall, inLoop: bool)
    requires Inv(c) && Kept(c)
    ensures Tracks(c, Call(c, call, inLoop))
    ensures inLoop || !call.Send? ==> Pending(Call(c, call, inLoop)) == Pending(c)
  {
    match call
    case Send(message) =>
      if c.state.Connected? {
        if inLoop { AppendTracks(c, message); } else { CheckTracks(c, message); }
      }
    case Shutdown => ShutdownCallTracks(c, inLoop);
    case ForceClose => ForceCloseTracks(c, inLoop);
  }

  lemma TracksTrans(c: Conn, d: Conn, e: Conn)
    requires Tracks(c, d) && Tracks(d, e)
    requires !c.state.Disconnected? && Pending(c) == multiset{} ==>
               !d.state.Disconnected? && Pending(d) == multiset{}
    ensures Tracks(c, e)
  {
  }

  lemma {:induction false} CallsTrack(c: Conn, calls: seq<UserCall>)
    requires Inv(c) && Kept(c)
    ensures Tracks(c, Calls(c, calls)) && Pending(Calls(c, calls)) == Pending(c)
  {
    if calls != [] {
      var init := calls[..|calls| - 1];
      CallsTrack(c, init);
      CallsFollow(c, init);
      CallTracks(Calls(c, init), calls[|calls| - 1], true);
      TracksTrans(c, Calls(c, init), Calls(c, calls));
    }
  }

  lemma CloseTracks(c: Conn)
    requires Kept(c)
    ensures Tracks(c, HandleClose(c)) && HandleClose(c).jobs == c.jobs
  {
  }

  lemma ReadTracks(c: Conn, result: ReadResult, cb: Callback)
    requires Inv(c) && Kept(c) && Open(c)
    ensures Tracks(c, HandleRead(c, result, cb)) && Pending(HandleRead(c, result, cb)) == Pending(c)
  {
    match result
    case Data(bytes) =>
      var input := c.input + bytes;
      var d := c.(input := input[Basics.Min(cb.retrieve, |input|)..], received := c.received + bytes);
      CallsTrack(d, cb.calls);
    case Eof => if c.output == "" { CloseTracks(c); }
    case ReadError =>
  }

  /** What `handleWrite` does once the output is empty. */
  lemma CompleteTracks(c: Conn, calls: seq<UserCall>)
    requires Inv(c) && Kept(c)
    ensures var d := Calls(c, calls); Tracks(c, if d.state.Disconnecting? then ShutdownInLoop(d) else d)
  {
    var d := Calls(c, calls);
    CallsTrack(c, calls);
    CallsFollow(c, calls);
    if d.state.Disconnecting? {
      ShutdownTracks(d);
      TracksTrans(c, d, ShutdownInLoop(d));
    }
  }

  /** Bytes leave the output. */
  lemma SomeWritten(c: Conn, k: nat)
    requires Inv(c) && Kept(c) && 0 < k <= |c.output|
    ensures var d := c.(written := c.written + c.output[..k], output := c.output[k..]);
            Tracks(c, d) && d.written + d.output == d.accepted
  {
    assert c.written + c.output[..k] + c.output[k..] == c.written + (c.output[..k] + c.output[k..]) == c.accepted;
  }

  lemma WriteTracks(c: Conn, n: nat, calls: seq<UserCall>)
    requires Inv(c) && Kept(c)
    ensures Tracks(c, HandleWrite(c, n, calls))
  {
    var k := Basics.Min(n, |c.output|);
    if c.writing && k != 0 {
      var d := c.(written := c.written + c.output[..k], output := c.output[k..]);
      SomeWritten(c, k);
      if d.output == "" {
        CompleteTracks(d.(writing := false), calls);
        TracksTrans(c, d, HandleWrite(c, n, calls));
      }
    }
  }

  lemma EventTracks(c: Conn, e: Revents, result: ReadResult, cb: Callback, n: nat, onComplete: seq<UserCall>)
    requires Inv(c) && Kept(c) && Open(c) && !(e.hup && !e.input && e.priOrRdhup)
    ensures Tracks(c, HandleEvent(c, e, result, cb, n, onComplete))
  {
    if e.hup && !e.input {
      CloseTracks(c);
      assert HandleWrite(HandleClose(c), n, onComplete) == HandleClose(c);
    } else if e.input || e.priOrRdhup {
      var d := HandleRead(c, result, cb);
      ReadTracks(c, result, cb);
      HandleReadFollows(c, result, cb);
      WriteTracks(d, n, onComplete);
      if d.state.Disconnected? {
        assert HandleWrite(d, n, onComplete) == d;
      } else {
        TracksTrans(c, d, HandleWrite(d, n, onComplete));
      }
    } else {
      WriteTracks(c, n, onComplete);
    }
  }

  /** Running the oldest functor. */
  lemma JobTracks(c: Conn, b: Conn, job: Job)
    requires Inv(c) && Kept(c) && c.jobs != [] && !c.state.Connecting?
    requires b == c.(jobs := c.jobs[1..]) && job == c.jobs[0]
    ensures Tracks(c, RunJob(b, job))
  {
    match job
    case SendJob(message) => LateTracks(c, message);
    case ShutdownJob => LateShutdown(c);
    case ForceCloseJob => LateForceClose(c, b);
  }

  lemma LateForceClose(c: Conn, b: Conn)
    requires Inv(c) && Kept(c) && c.jobs != [] && c.jobs[0] == ForceCloseJob
    requires b == c.(jobs := c.jobs[1..])
    ensures Tracks(c, ForceCloseInLoop(b))
  {
    if Open(b) { CloseTracks(b); }
  }

  lemma LateShutdown(c: Conn)
    requires Inv(c) && Kept(c) && c.jobs != [] && c.jobs[0] == ShutdownJob
    ensures Tracks(c, ShutdownInLoop(c.(jobs := c.jobs[1..])))
  {
    assert c.jobs[0] in c.jobs;
    ShutdownTracks(c.(jobs := c.jobs[1..]));
  }

  /** A queued message is appended, or dropped if the connection is closed by now. */
  lemma LateTracks(c: Conn, message: string)
    requires Inv(c) && Kept(c) && c.jobs != [] && c.jobs[0] == SendJob(message) && !c.state.Connecting?
    ensures Tracks(c, SendInLoop(c.(jobs := c.jobs[1..]), message))
  {
    var b := c.(jobs := c.jobs[1..]);
    var m, queued := c.messages, Queued(b.jobs);
    NothingLeft(c);
    assert Queued(c.jobs) == multiset{message} + queued;
    assert Queued(c.jobs)[message] > 0;
    assert Pending(c)[message] > 0;
    assert forall j :: j in b.jobs ==> j in c.jobs;
    if c.state.Disconnected? {
      DroppedNow(m.taken, multiset(m.appended), message, queued, c.flying.sends, m.dropped);
    } else {
      AppendedIs(m.appended, message);
      AppendedNow(m.taken, multiset(m.appended), message, queued, c.flying.sends, m.dropped);
    }
  }

  lemma AppendedNow(taken: multiset<string>, appended: multiset<string>, message: string, queued: multiset<string>,
                    sends: multiset<string>, dropped: multiset<string>)
    requires taken == appended + ((multiset{message} + queued) + sends) + dropped
    ensures taken == (appended + multiset{message}) + (queued + sends) + dropped
  {
  }

  lemma DroppedNow(taken: multiset<string>, appended: multiset<string>, message: string, queued: multiset<string>,
                   sends: multiset<string>, dropped: multiset<string>)
    requires taken == appended + ((multiset{message} + queued) + sends) + dropped
    ensures taken == appended + (queued + sends) + (dropped + multiset{message})
  {
  }

  lemma AppendedIs(appended: seq<string>, message: string)
    ensures Concat(appended + [message]) == Concat(appended) + message
    ensures multiset(appended + [message]) == multiset(appended) + multiset{message}
  {
    assert (appended + [message])[..|appended|] == appended;
  }

  // ----------------------------------------------------------------- runs

  lemma StepTracks(c: Conn, a: Step)
    requires Inv(c) && Kept(c) && Enabled(c, a)
    ensures Tracks(c, Apply(c, a))
  {
    match a
    case Establish =>
    case User(call, inLoop) => CallTracks(c, call, inLoop);
    case Push(job) => PushTracks(c, job);
    case Event(e, result, cb, n, onComplete) => EventTracks(c, e, result, cb, n, onComplete);
    case NextJob => JobTracks(c, c.(jobs := c.jobs[1..]), c.jobs[0]);
  }

  lemma StepInv(c: Conn, a: Step)
    requires Inv(c) && Enabled(c, a)
    ensures Inv(Apply(c, a)) && Rank(c.state) <= Rank(Apply(c, a).state)
  {
    StepFollows(c, a);
  }

  lemma {:induction false} RunKeeps(c: Conn, steps: seq<Step>, d: Conn)
    requires Inv(c) && Kept(c) && Reaches(c, steps, d)
    ensures Inv(d) && Kept(d)
    decreases |steps|
  {
    if steps != [] {
      StepInv(c, steps[0]);
      StepTracks(c, steps[0]);
      RunKeeps(Apply(c, steps[0]), steps[1..], d);
    }
  }

  /** In every run: each message that `send` has taken is appended, queued, in flight or dropped, once; messages are
      dropped only when the connection is closed; and what has been written and buffered are the messages appended, in
      order. */
  lemma MessagesConserved(steps: seq<Step>, d: Conn)
    requires Reaches(Fresh, steps, d)
    ensures d.messages.taken == multiset(d.messages.appended) + Queued(d.jobs) + d.flying.sends + d.messages.dropped
    ensures d.written + d.output == Concat(d.messages.appended)
    ensures d.messages.dropped != multiset{} ==> d.state.Disconnected?
  {
    RunKeeps(Fresh, steps, d);
  }

  /** Nothing follows a SHUT_WR that did not come too early: whatever happens later, no message is taken, appended or
      written any more, and all that were taken are written. */
  lemma {:induction false} NothingAfterShutdown(c: Conn, steps: seq<Step>, d: Conn)
    requires Inv(c) && Kept(c) && c.shutWrite && !c.shutEarly && Reaches(c, steps, d)
    ensures d.messages.taken == c.messages.taken && d.messages.appended == c.messages.appended && d.written == c.written
    ensures d.shutWrite && !d.shutEarly && AllWritten(d)
    decreases |steps|
  {
    if steps != [] {
      StepInv(c, steps[0]);
      StepTracks(c, steps[0]);
      NothingAfterShutdown(Apply(c, steps[0]), steps[1..], d);
    }
  }

  /** Another thread sends. */
  predicate ForeignSend(a: Step) { a.User? && a.call.Send? && !a.inLoop }

  /** What a caller can see to: if only the loop thread sends, then in every run up to the close SHUT_WR is issued
      only when every message taken has been written. */
  lemma {:induction false} CleanShutdownIfLoopSends(c: Conn, steps: seq<Step>, d: Conn)
    requires Inv(c) && Kept(c) && !c.shutEarly && Pending(c) == multiset{} && Reaches(c, steps, d)
    requires !d.state.Disconnected? && forall a :: a in steps ==> !ForeignSend(a)
    ensures !d.shutEarly
    decreases |steps|
  {
    if steps != [] {
      var c1 := Apply(c, steps[0]);
      StepInv(c, steps[0]);
      StepTracks(c, steps[0]);
      RunInv(c1, steps[1..], d);
      NoneQueued(c, steps[0]);
      CleanShutdownIfLoopSends(c1, steps[1..], d);
    }
  }

  lemma NoneQueued(c: Conn, a: Step)
    requires Inv(c) && Kept(c) && Enabled(c, a) && Pending(c) == multiset{} && !ForeignSend(a)
    ensures Pending(Apply(c, a)) == multiset{}
  {
    match a
    case Establish =>
    case User(call, inLoop) => CallTracks(c, call, inLoop);
    case Push(job) => PushTracks(c, job);
    case Event(e, result, cb, n, onComplete) => EventQueues(c, e, result, cb, n, onComplete);
    case NextJob =>
      NoMessageFirst(c.jobs);
      JobQueues(c.(jobs := c.jobs[1..]), c.jobs[0]);
  }

  lemma JobQueues(b: Conn, job: Job)
    ensures RunJob(b, job).jobs == b.jobs
  {
  }

  lemma NoMessageFirst(jobs: seq<Job>)
    requires jobs != [] && Queued(jobs) == multiset{}
    ensures Queued(jobs[1..]) == multiset{} && !jobs[0].SendJob?
  {
    assert Queued(jobs)[if jobs[0].SendJob? then jobs[0].message else ""] == 0;
    assert Queued(jobs[1..]) <= Queued(jobs);
  }

  lemma EventQueues(c: Conn, e: Revents, result: ReadResult, cb: Callback, n: nat, onComplete: seq<UserCall>)
    requires Inv(c) && Kept(c) && Open(c) && !(e.hup && !e.input && e.priOrRdhup)
    ensures Pending(HandleEvent(c, e, result, cb, n, onComplete)) == Pending(c)
  {
    var c1 := if e.hup && !e.input then HandleClose(c) else c;
    var c2 := if e.input || e.priOrRdhup then HandleRead(c1, result, cb) else c1;
    if e.input || e.priOrRdhup {
      ReadTracks(c, result, cb);
      HandleReadFollows(c, result, cb);
    } else if e.hup && !e.input {
      CloseTracks(c);
    }
    WriteQueues(c2, n, onComplete);
  }

  lemma WriteQueues(c: Conn, n: nat, calls: seq<UserCall>)
    requires Inv(c) && Kept(c)
    ensures Pending(HandleWrite(c, n, calls)) == Pending(c)
  {
    var k := Basics.Min(n, |c.output|);
    if c.writing && k != 0 {
      var d := c.(written := c.written + c.output[..k], output := c.output[k..]);
      SomeWritten(c, k);
      if d.output == "" { CompleteQueues(d.(writing := false), calls); }
    }
  }

  lemma CompleteQueues(c: Conn, calls: seq<UserCall>)
    requires Inv(c) && Kept(c)
    ensures var d := Calls(c, calls); Pending(if d.state.Disconnecting? then ShutdownInLoop(d) else d) == Pending(c)
  {
    CallsTrack(c, calls);
  }

  /** The connection is open, SHUT_WR has been issued, and the one message taken is still to be written. */
  predicate Overtaken(d: Conn, message: string) {
    && d.state.Disconnecting? && d.shutWrite && d.shutEarly && !d.shutDirty
    && d.messages.taken == multiset{message} && d.written == "" && d.output == message
  }

  /** The loop has nothing to write and no functor of the connection. */
  predicate NothingInLoop(c: Conn) { c.state.Connected? && c.jobs == [] && c.output == "" && !c.writing }

  /** A run in which SHUT_WR overtakes a queued message on an open connection: another thread's `send` has pushed its
      functor when the loop thread shuts down; the message is appended only afterwards. */
  lemma QueuedSendIsOvertaken() returns (steps: seq<Step>, d: Conn)
    ensures Reaches(Fresh, steps, d) && Overtaken(d, "x")
  {
    steps, d := Extend([], Fresh, Establish);
    steps, d := Extend(steps, d, User(Send("x"), false));
    steps, d := Extend(steps, d, Push(SendJob("x")));
    assert "x" in d.messages.taken;
    steps, d := Extend(steps, d, User(Shutdown, true));
    steps, d := Extend(steps, d, NextJob);
  }

  /** A run in which SHUT_WR overtakes a message in flight: another thread's `send` has passed its check, but nothing is
      queued yet when the loop thread shuts down; the push comes after SHUT_WR, and the message is appended all the
      same. */
  lemma InFlightSendIsOvertaken() returns (steps: seq<Step>, at: Conn, d: Conn)
    ensures |steps| > 2 && Reaches(Fresh, steps[..2], at) && steps[2] == User(Shutdown, true) && NothingInLoop(at)
    ensures Reaches(Fresh, steps, d) && Overtaken(d, "x")
  {
    steps, at := Extend([], Fresh, Establish);
    steps, at := Extend(steps, at, User(Send("x"), false));
    assert "x" in at.messages.taken;
    var front := steps;
    steps, d := Extend(steps, at, User(Shutdown, true));
    steps, d := Extend(steps, d, Push(SendJob("x")));
    steps, d := Extend(steps, d, NextJob);
    assert steps[..2] == front;
  }
}
