/**
 What the operations of a connection achieve, and that SHUT_WR comes: what is sent is taken, a writable event writes,
 and a connection that is shutting down issues SHUT_WR as soon as its output is written.
 */
module HalfClose {
  import Basics
  import opened ConnectionProtocol

  // ------------------------------------------------------ single operations

  /** What `send` does: in the loop the message is appended at once, from another thread it is in flight; only an open
      connection that is not shutting down takes it. */
  lemma SendIsTaken(c: Conn, message: string)
    ensures c.state.Connected? ==>
              var d := Call(c, Send(message), true);
              && d.output == c.output + message && d.accepted == c.accepted + message && d.writing
              && d.messages.appended == c.messages.appended + [message] && d.state == c.state && d.jobs == c.jobs
    ensures c.state.Connected? ==>
              var d := Call(c, Send(message), false);
              && d.flying.sends == c.flying.sends + multiset{message} && d.flying.Has(SendJob(message))
              && d.messages.taken == c.messages.taken + multiset{message} && d.output == c.output && d.jobs == c.jobs
    ensures !c.state.Connected? ==> Call(c, Send(message), true) == c == Call(c, Send(message), false)
  {
  }

  /** A message in flight gets there: pushed, and then run, it is appended, unless the connection is closed by then. */
  lemma SendArrives(c: Conn, d: Conn, message: string)
    ensures c.flying.Has(SendJob(message)) ==> PushJob(c, SendJob(message)).jobs == c.jobs + [SendJob(message)]
    ensures !d.state.Disconnected? ==>
              var e := RunJob(d, SendJob(message));
              e.output == d.output + message && e.accepted == d.accepted + message && e.writing
    ensures d.state.Disconnected? ==> RunJob(d, SendJob(message)).output == d.output
  {
  }

  /** `shutdown` makes a connected connection Disconnecting, with SHUT_WR issued, deferred to the end of the output, or
      by a functor still to come. */
  lemma ShutdownBegins(c: Conn, inLoop: bool)
    requires c.state.Connected?
    ensures var d := Call(c, Shutdown, inLoop);
            && d.state.Disconnecting? && d.output == c.output && d.writing == c.writing
            && (if inLoop then c.writing || d.shutWrite else d.flying.Has(ShutdownJob))
  {
  }

  /** `forceClose` closes: its functor is queued or in flight, and an open connection on which it runs is closed. */
  lemma ForceCloseCloses(c: Conn, inLoop: bool, d: Conn)
    requires Open(c)
    ensures var e := Call(c, ForceClose, inLoop);
            && e.state.Disconnecting?
            && (if inLoop then e.jobs == c.jobs + [ForceCloseJob] else e.flying.Has(ForceCloseJob))
    ensures Open(d) ==>
              var e := RunJob(d, ForceCloseJob);
              && e.state.Disconnected? && e.downs == d.downs + 1 && !e.reading && !e.writing
              && e.assertFailed == d.assertFailed
  {
  }

  /** `connectDestroyed` closes what is still connected, with its DOWN callback, and does nothing else. */
  lemma DestroyedIsClosed(c: Conn)
    requires Inv(c)
    ensures !ConnectDestroyed(c).state.Connected?
    ensures c.state.Connected? ==>
              var d := ConnectDestroyed(c);
              d.state.Disconnected? && d.downs == 1 && Inv(d) && d.output == c.output && d.written == c.written
    ensures !c.state.Connected? ==> ConnectDestroyed(c) == c
  {
  }

  /** A writable event moves exactly what the socket takes from the front of the output to what is written; the rest
      stays, with write interest; write interest ends with the output, unless the callback sends more. */
  lemma WritesExactly(c: Conn, n: nat, calls: seq<UserCall>)
    requires Inv(c)
    ensures var k, d := Basics.Min(n, |c.output|), HandleWrite(c, n, calls);
            && d.written == c.written + (if c.writing then c.output[..k] else "")
            && (c.writing && k < |c.output| ==> d.output == c.output[k..] && d.writing && d.state == c.state)
            && (c.writing && k == |c.output| > 0 && calls == [] ==> d.output == "" && !d.writing)
            && (!c.writing ==> d == c)
  {
    var k := Basics.Min(n, |c.output|);
    if c.writing && k == |c.output| > 0 {
      var c2 := c.(written := c.written + c.output[..k], output := c.output[k..], writing := false);
      assert c2.written + c2.output == c.accepted;
      CallsFollow(c2, calls);
    }
  }

  /** A readable event hands over what has been read: it is behind the input there was, less what the callback takes
      from the front, and nothing of the output is written by it. */
  lemma ReadsExactly(c: Conn, bytes: string, cb: Callback)
    requires Inv(c) && Open(c)
    ensures var d := HandleRead(c, Data(bytes), cb);
            && d.received == c.received + bytes && d.written == c.written
            && |d.input| == |c.input + bytes| - Basics.Min(cb.retrieve, |c.input + bytes|)
            && (c.input + bytes)[|c.input + bytes| - |d.input|..] == d.input
  {
    var input := c.input + bytes;
    var got := c.(input := input[Basics.Min(cb.retrieve, |input|)..], received := c.received + bytes);
    CallsFollow(got, cb.calls);
    CallsKeepInput(got, cb.calls);
  }

  lemma {:induction false} CallsKeepInput(c: Conn, calls: seq<UserCall>)
    ensures Calls(c, calls).input == c.input
  {
    if calls != [] {
      var front := calls[..|calls| - 1];
      CallsKeepInput(c, front);
      CallAppends(Calls(c, front), calls[|calls| - 1]);
    }
  }

  function Sends(messages: seq<string>): (calls: seq<UserCall>)
    ensures |calls| == |messages| && forall i :: 0 <= i < |calls| ==> calls[i] == Send(messages[i])
  {
    seq(|messages|, i requires 0 <= i < |messages| => Send(messages[i]))
  }

  function Flat(messages: seq<string>): string {
    if messages == [] then "" else Flat(messages[..|messages| - 1]) + messages[|messages| - 1]
  }

  lemma {:induction false} CallsSend(c: Conn, messages: seq<string>)
    requires c.state.Connected?
    ensures var d := Calls(c, Sends(messages));
            && d.state.Connected? && d.output == c.output + Flat(messages) && d.written == c.written
            && d.accepted == c.accepted + Flat(messages)
  {
    var calls := Sends(messages);
    if messages != [] {
      var n := |messages| - 1;
      CallsSend(c, messages[..n]);
      assert calls[..n] == Sends(messages[..n]);
      OneMore(c, Calls(c, calls[..n]), Flat(messages[..n]), messages[n]);
    }
  }

  lemma OneMore(c: Conn, d: Conn, sent: string, message: string)
    requires d.state.Connected? && d.output == c.output + sent && d.accepted == c.accepted + sent
    ensures var e := Call(d, Send(message), true);
            && e.state.Connected? && e.written == d.written
            && e.output == c.output + (sent + message) && e.accepted == c.accepted + (sent + message)
  {
    assert c.output + (sent + message) == (c.output + sent) + message;
    assert c.accepted + (sent + message) == (c.accepted + sent) + message;
  }

  /** The callbacks run, once: what the message callback sends is behind the output there was, and what the callback for
      a complete write sends is the output afterwards. */
  lemma CallbacksSend(c: Conn, bytes: string, retrieve: nat, n: nat, messages: seq<string>)
    requires Inv(c) && c.state.Connected?
    ensures HandleRead(c, Data(bytes), Callback(retrieve, Sends(messages))).output == c.output + Flat(messages)
    ensures c.writing && n >= |c.output| > 0 ==> HandleWrite(c, n, Sends(messages)).output == Flat(messages)
  {
    var input := c.input + bytes;
    CallsSend(c.(input := input[Basics.Min(retrieve, |input|)..], received := c.received + bytes), messages);
    if c.writing && n >= |c.output| > 0 {
      var k := Basics.Min(n, |c.output|);
      var c1 := c.(written := c.written + c.output[..k], output := c.output[k..]);
      CallsSend(c1.(writing := false), messages);
    }
  }

  /** An end of file with output pending leaves the connection open and the output to be written; without any it
      closes. */
  lemma EofKeepsOutput(c: Conn, cb: Callback)
    requires Inv(c) && Open(c)
    ensures var d := HandleRead(c, Eof, cb);
            && d.output == c.output && d.written == c.written && d.accepted == c.accepted
            && (if c.output != "" then d.state.Disconnecting? && Open(d) && d.writing && d.reading && d.downs == 0
                else d.state.Disconnected? && d.downs == 1)
  {
  }

  /** Dispatch calls the handlers: a hang-up without input closes, input is read, and output is written. */
  lemma DispatchActs(c: Conn, e: Revents, result: ReadResult, cb: Callback, n: nat, calls: seq<UserCall>)
    requires Inv(c) && Open(c) && !(e.hup && !e.input && e.priOrRdhup)
    ensures var d := HandleEvent(c, e, result, cb, n, calls);
            && (e.hup && !e.input ==> d.state.Disconnected? && d.downs == 1)
            && ((e.input || e.priOrRdhup) && result.Data? ==> d.received == c.received + result.bytes)
            && ((e.input || e.priOrRdhup) && result.Eof? && c.output == "" ==> d.state.Disconnected?)
            && (e.output && !e.input && !e.hup && !e.priOrRdhup ==> d == HandleWrite(c, n, calls))
            && (e.output && c.writing && (e.hup ==> e.input) ==>
                  c.written + c.output[..Basics.Min(n, |c.output|)] <= d.written)
  {
    var c2 := if e.input || e.priOrRdhup then HandleRead(c, result, cb) else c;
    if !(e.hup && !e.input) {
      if e.input || e.priOrRdhup { ReadKeepsOutput(c, result, cb); }
      WritesExactly(c2, n, calls);
      WriteReceives(c2, n, calls);
    }
  }

  lemma WriteReceives(c: Conn, n: nat, calls: seq<UserCall>)
    requires Inv(c)
    ensures HandleWrite(c, n, calls).received == c.received
    ensures c.state.Disconnected? ==> HandleWrite(c, n, calls) == c
  {
    var k := Basics.Min(n, |c.output|);
    if c.writing && k == |c.output| > 0 {
      var c2 := c.(written := c.written + c.output[..k], output := c.output[k..], writing := false);
      assert c2.written + c2.output == c.accepted;
      CallsFollow(c2, calls);
    }
  }

  /** Reading leaves the output there was in front of whatever the callback appends. */
  lemma ReadKeepsOutput(c: Conn, result: ReadResult, cb: Callback)
    requires Inv(c) && Open(c)
    ensures var d := HandleRead(c, result, cb);
            && Inv(d) && c.output <= d.output && d.written == c.written && (c.writing && Open(d) ==> d.writing)
            && (c.output != "" ==> Open(d)) && (result.Data? ==> d.received == c.received + result.bytes)
  {
    HandleReadFollows(c, result, cb);
    if result.Data? {
      var input := c.input + result.bytes;
      var got := c.(input := input[Basics.Min(cb.retrieve, |input|)..], received := c.received + result.bytes);
      CallsFollow(got, cb.calls);
      CallsAppend(got, cb.calls);
    }
  }

  lemma {:induction false} CallsAppend(c: Conn, calls: seq<UserCall>)
    ensures c.output <= Calls(c, calls).output && (c.writing ==> Calls(c, calls).writing)
  {
    if calls != [] {
      var front := calls[..|calls| - 1];
      CallsAppend(c, front);
      CallAppends(Calls(c, front), calls[|calls| - 1]);
    }
  }

  lemma CallAppends(c: Conn, call: UserCall)
    ensures var d := Call(c, call, true);
            c.output <= d.output && (c.writing ==> d.writing) && d.input == c.input
  {
    match call
    case Send(message) => assert c.output <= c.output + message;
    case Shutdown =>
    case ForceClose =>
  }

  // ------------------------------------------------------- SHUT_WR comes

  /** A call of `shutdown` or `forceClose` still has its functor to run, or to queue. */
  predicate CloseToCome(c: Conn) {
    ShutdownJob in c.jobs || ForceCloseJob in c.jobs || c.flying.shutdowns > 0 || c.flying.closes > 0
  }

  /** A connection that is shutting down and has nothing to write has issued SHUT_WR, or is about to. */
  predicate ShutComes(c: Conn) { c.state.Disconnecting? && !c.writing ==> c.shutWrite || CloseToCome(c) }

  /** Operations of the loop keep that, and SHUT_WR is never taken back. */
  predicate Keeps(c: Conn, d: Conn) {
    (c.shutWrite ==> d.shutWrite) && (ShutComes(c) ==> ShutComes(d))
  }

  /** The closing functors of other calls stay. */
  predicate StillToCome(c: Conn, d: Conn) { CloseToCome(c) ==> CloseToCome(d) }

  lemma CallKeeps(c: Conn, call: UserCall, inLoop: bool)
    requires Inv(c)
    ensures Keeps(c, Call(c, call, inLoop)) && StillToCome(c, Call(c, call, inLoop))
  {
    assert forall job :: ForceCloseJob in c.jobs + [job] <==> ForceCloseJob in c.jobs || job == ForceCloseJob;
    assert forall job :: ShutdownJob in c.jobs + [job] <==> ShutdownJob in c.jobs || job == ShutdownJob;
  }

  lemma {:induction false} CallsKeep(c: Conn, calls: seq<UserCall>)
    requires Inv(c)
    ensures Keeps(c, Calls(c, calls)) && StillToCome(c, Calls(c, calls))
  {
    if calls != [] {
      var front := calls[..|calls| - 1];
      CallsKeep(c, front);
      CallsFollow(c, front);
      CallKeeps(Calls(c, front), calls[|calls| - 1], true);
    }
  }

  lemma PushKeeps(c: Conn, job: Job)
    requires c.flying.Has(job)
    ensures Keeps(c, PushJob(c, job))
  {
    assert forall j :: j in c.jobs + [job] <==> j in c.jobs || j == job;
  }

  lemma ReadKeeps(c: Conn, result: ReadResult, cb: Callback)
    requires Inv(c) && Open(c)
    ensures Keeps(c, HandleRead(c, result, cb))
  {
    if result.Data? {
      var input := c.input + result.bytes;
      var got := c.(input := input[Basics.Min(cb.retrieve, |input|)..], received := c.received + result.bytes);
      CallsKeep(got, cb.calls);
    }
  }

  lemma WriteKeeps(c: Conn, n: nat, calls: seq<UserCall>)
    requires Inv(c)
    ensures Keeps(c, HandleWrite(c, n, calls))
  {
    var k := Basics.Min(n, |c.output|);
    if c.writing && k == |c.output| > 0 {
      var c2 := c.(written := c.written + c.output[..k], output := c.output[k..], writing := false);
      assert c2.written + c2.output == c.accepted;
      CallsKeep(c2, calls);
    }
  }

  lemma EventKeeps(c: Conn, e: Revents, result: ReadResult, cb: Callback, n: nat, calls: seq<UserCall>)
    requires Inv(c) && Open(c) && !(e.hup && !e.input && e.priOrRdhup)
    ensures Keeps(c, HandleEvent(c, e, result, cb, n, calls))
  {
    var c1 := if e.hup && !e.input then HandleClose(c) else c;
    var c2 := if e.input || e.priOrRdhup then HandleRead(c1, result, cb) else c1;
    if e.input || e.priOrRdhup {
      ReadKeeps(c, result, cb);
      HandleReadFollows(c, result, cb);
    }
    WriteKeeps(c2, n, calls);
  }

  /** A functor that runs does what it was to come for. */
  lemma JobKeeps(c: Conn, b: Conn, job: Job)
    requires Inv(c) && c.jobs != [] && b == c.(jobs := c.jobs[1..]) && job == c.jobs[0]
    ensures Keeps(c, RunJob(b, job))
  {
    assert c.jobs == [job] + b.jobs;
    assert forall j :: j in c.jobs <==> j == job || j in b.jobs;
  }

  lemma StepKeeps(c: Conn, a: Step)
    requires Inv(c) && Enabled(c, a)
    ensures Keeps(c, Apply(c, a))
  {
    match a
    case Establish =>
    case User(call, inLoop) => CallKeeps(c, call, inLoop);
    case Push(job) => PushKeeps(c, job);
    case Event(e, result, cb, n, onComplete) => EventKeeps(c, e, result, cb, n, onComplete);
    case NextJob => JobKeeps(c, c.(jobs := c.jobs[1..]), c.jobs[0]);
  }

  lemma {:induction false} RunKeepsShut(c: Conn, steps: seq<Step>, d: Conn)
    requires Inv(c) && ShutComes(c) && Reaches(c, steps, d)
    ensures Inv(d) && ShutComes(d)
    decreases |steps|
  {
    if steps != [] {
      StepFollows(c, steps[0]);
      StepKeeps(c, steps[0]);
      RunKeepsShut(Apply(c, steps[0]), steps[1..], d);
    }
  }

  /** In every run: an open connection that is shutting down and not writing has issued SHUT_WR, or a call of
      `shutdown` or `forceClose` still has its functor to run or to queue. */
  lemma ShutdownComes(steps: seq<Step>, d: Conn)
    requires Reaches(Fresh, steps, d) && d.state.Disconnecting? && !d.writing
    ensures d.shutWrite || ShutdownJob in d.jobs || ForceCloseJob in d.jobs
            || d.flying.shutdowns > 0 || d.flying.closes > 0
  {
    RunKeepsShut(Fresh, steps, d);
  }

  /** And one that is still writing issues it exactly with the write that takes the last of its output; so it waits for
      ever if it is writing with no output at all. */
  lemma DrainedIsShut(c: Conn, n: nat)
    requires Inv(c) && c.state.Disconnecting? && c.writing && !c.shutWrite
    ensures HandleWrite(c, n, []).shutWrite <==> c.output != "" && n >= |c.output|
    ensures HandleWrite(c, n, []).shutWrite ==> HandleWrite(c, n, []).written == c.accepted
    ensures c.output == "" ==> HandleWrite(c, n, []) == c
  {
    WritesExactly(c, n, []);
    if c.output != "" && n >= |c.output| {
      assert c.output[..|c.output|] == c.output && c.output[|c.output|..] == "";
    }
  }

  /** The run that gets there: an empty message turns write interest on with nothing to write, and the shutdown that
      waits for the end of the output waits although everything sent has been written. */
  lemma EmptySendHoldsUpShutdown() returns (steps: seq<Step>, d: Conn)
    ensures Reaches(Fresh, steps, d) && HeldUp(d)
  {
    steps, d := Extend([], Fresh, Establish);
    steps, d := Extend(steps, d, User(Send(""), true));
    steps, d := Extend(steps, d, User(Shutdown, true));
  }

  /** Shutting down with nothing to write, nothing queued, and no SHUT_WR. */
  predicate HeldUp(c: Conn) {
    && c.state.Disconnecting? && c.writing && c.output == "" && c.written == c.accepted && !c.shutWrite
    && c.jobs == [] && c.flying == NoCalls
  }

  /** How the answer to a request goes: sent and shut down in the loop, it leaves in whatever pieces the socket takes,
      and SHUT_WR follows with the last one and not before. */
  lemma {:induction false} AnswerThenShut(c: Conn, taken: seq<nat>) returns (steps: seq<Step>, d: Conn)
    requires Inv(c) && c.state.Disconnecting? && c.writing && !c.shutWrite && c.output != ""
    requires forall i :: 0 <= i < |taken| ==> taken[i] > 0
    ensures Reaches(c, steps, d) && |steps| <= |taken| && forall a :: a in steps ==> a.Event?
    ensures d.shutWrite <==> Sum(taken) >= |c.output|
    ensures d.written == c.written + c.output[..Basics.Min(Sum(taken), |c.output|)]
    decreases |taken|
  {
    if taken == [] {
      steps, d := [], c;
    } else {
      var a := Writable(taken[0]);
      var c1 := Apply(c, a);
      WriteOnce(c, taken[0]);
      if taken[0] >= |c.output| {
        steps, d := [a], c1;
        assert [a][1..] == [] && Reaches(c1, [], c1);
      } else {
        var rest;
        rest, d := AnswerThenShut(c1, taken[1..]);
        steps := [a] + rest;
        assert steps[1..] == rest;
        Slices(c.output, taken[0], Basics.Min(Sum(taken), |c.output|));
      }
    }
  }

  function Sum(ns: seq<nat>): nat { if ns == [] then 0 else ns[0] + Sum(ns[1..]) }

  function Writable(n: nat): Step {
    Event(Revents(false, false, false, false, true), ReadError, Callback(0, []), n, [])
  }

  lemma WriteOnce(c: Conn, n: nat)
    requires Inv(c) && c.state.Disconnecting? && c.writing && !c.shutWrite && c.output != "" && n > 0
    ensures Enabled(c, Writable(n)) && Inv(Apply(c, Writable(n)))
    ensures var k, d := Basics.Min(n, |c.output|), Apply(c, Writable(n));
            && d.written == c.written + c.output[..k] && d.output == c.output[k..]
            && (if k < |c.output| then d.state.Disconnecting? && d.writing && !d.shutWrite else d.shutWrite)
  {
    WritesExactly(c, n, []);
    DrainedIsShut(c, n);
    HandleWriteFollows(c, n, []);
  }

  lemma Slices(s: string, i: nat, j: nat)
    requires i <= j <= |s|
    ensures s[..i] + s[i..][..j - i] == s[..j]
  {
  }
}
