/**
 One TCP connection (TcpConnection.cpp) seen from its loop: the state, the channel's interest, the
 output stream, and the functors the connection has queued on its loop. The two buffers are
 represented by their contents; module Buffer relates the real one to its contents.
 One step is one handler or functor of the loop, or one action of another thread: a call of another thread checks
 `state_` (and assigns to it) in one step, and pushes its functor in a later one.
 */
module ConnectionProtocol {
  import opened Basics

  datatype StateE = Connecting | Connected | Disconnecting | Disconnected

  /** A functor queued by `send`, `shutdown` or `forceClose`. */
  datatype Job = SendJob(message: string) | ShutdownJob | ForceCloseJob

  /** The calls of other threads between their check of `state_` and their push: the messages of `send`, and how many
      calls of `shutdown` and `forceClose`. */
  datatype InFlight = InFlight(sends: multiset<string>, shutdowns: nat, closes: nat) {
    function With(job: Job): InFlight {
      match job
      case SendJob(message) => this.(sends := sends + multiset{message})
      case ShutdownJob => this.(shutdowns := shutdowns + 1)
      case ForceCloseJob => this.(closes := closes + 1)
    }

    predicate Has(job: Job) {
      match job
      case SendJob(message) => message in sends
      case ShutdownJob => shutdowns > 0
      case ForceCloseJob => closes > 0
    }

    function Without(job: Job): InFlight
      requires Has(job)
    {
      match job
      case SendJob(message) => this.(sends := sends - multiset{message})
      case ShutdownJob => this.(shutdowns := shutdowns - 1)
      case ForceCloseJob => this.(closes := closes - 1)
    }
  }

  const NoCalls := InFlight(multiset{}, 0, 0)

  /** The messages that `send` has taken, those of them appended to the output buffer, in order, and those that were
      queued and came too late. */
  datatype Messages = Messages(taken: multiset<string>, appended: seq<string>, dropped: multiset<string>) {
    function Take(message: string): Messages { this.(taken := taken + multiset{message}) }

    function Append(message: string): Messages { this.(appended := appended + [message]) }

    function Drop(message: string): Messages { this.(dropped := dropped + multiset{message}) }
  }

  datatype Conn = Conn(
    state: StateE, reading: bool, writing: bool,
    input: string, output: string,      // contents of the two buffers
    jobs: seq<Job>,                     // queued on the loop and not yet run
    flying: InFlight,                   // and not yet queued by the threads that will
    received: string,                   // history: bytes read from the socket
    written: string,                    // history: bytes written to the socket
    accepted: string,                   // history: messages appended to the output buffer
    messages: Messages,                 // history: what became of the messages
    shutWrite: bool,                    // SHUT_WR has been issued
    shutDirty: bool,                    // and at that moment accepted bytes were still unwritten
    shutEarly: bool,                    // or a message taken was not appended and written
    ups: nat, downs: nat,               // connection callbacks
    assertFailed: bool)                 // an assertion of the source would have failed

  const Fresh := Conn(Connecting, false, false, "", "", [], NoCalls, "", "", "",
                      Messages(multiset{}, [], multiset{}), false, false, false, 0, 0, false)

  datatype UserCall = Send(message: string) | Shutdown | ForceClose

  /** What a callback does: how much input it retrieves, and the calls it makes. */
  datatype Callback = Callback(retrieve: nat, calls: seq<UserCall>)

  datatype ReadResult = Data(bytes: string) | Eof | ReadError

  /** The bits of `revents_` that `handleEventWithGuard` looks at. */
  datatype Revents = Revents(hup: bool, err: bool, input: bool, priOrRdhup: bool, output: bool)

  // ----------------------------------------------------------- operations

  function ConnectEstablished(c: Conn): Conn {
    c.(state := Connected, reading := true, ups := c.ups + 1,
       assertFailed := c.assertFailed || !c.state.Connecting?)
  }

  function ConnectDestroyed(c: Conn): Conn {
    if c.state.Connected? then c.(state := Disconnected, reading := false, writing := false, downs := c.downs + 1)
    else c
  }

  function HandleClose(c: Conn): Conn {
    c.(state := Disconnected, reading := false, writing := false, downs := c.downs + 1,
       assertFailed := c.assertFailed || !(c.state.Connected? || c.state.Disconnecting?))
  }

  function SendInLoop(c: Conn, message: string): Conn {
    if c.state.Disconnected? then c.(messages := c.messages.Drop(message))
    else c.(output := c.output + message, accepted := c.accepted + message, messages := c.messages.Append(message),
            writing := true)
  }

  function ShutdownInLoop(c: Conn): Conn {
    if c.writing then c
    else c.(shutWrite := true, shutDirty := c.shutDirty || c.output != "", shutEarly := c.shutEarly || !AllWritten(c))
  }

  /** Every message taken has been appended and written. */
  predicate AllWritten(c: Conn) { c.messages.taken == multiset(c.messages.appended) && c.output == "" }

  function Take(c: Conn, message: string): Conn { c.(messages := c.messages.Take(message)) }

  function ForceCloseInLoop(c: Conn): Conn {
    if c.state.Connected? || c.state.Disconnecting? then HandleClose(c) else c
  }

  /** A call of the public interface: the whole call by the loop thread, or what another thread does before its
      push. */
  function Call(c: Conn, call: UserCall, inLoop: bool): Conn {
    match call
    case Send(message) =>
      if !c.state.Connected? then c
      else if inLoop then SendInLoop(Take(c, message), message)
      else Take(c, message).(flying := c.flying.With(SendJob(message)))
    case Shutdown =>
      if !c.state.Connected? then c
      else if inLoop then ShutdownInLoop(c.(state := Disconnecting))
      else c.(state := Disconnecting, flying := c.flying.With(ShutdownJob))
    case ForceClose =>
      if !c.state.Connected? && !c.state.Disconnecting? then c
      else if inLoop then c.(state := Disconnecting, jobs := c.jobs + [ForceCloseJob])
      else c.(state := Disconnecting, flying := c.flying.With(ForceCloseJob))
  }

  /** The locked push of `queueInLoop`, by another thread, in whatever state the connection is by now. */
  function PushJob(c: Conn, job: Job): Conn
    requires c.flying.Has(job)
  {
    c.(jobs := c.jobs + [job], flying := c.flying.Without(job))
  }

  function Calls(c: Conn, calls: seq<UserCall>): Conn {
    if calls == [] then c else Call(Calls(c, calls[..|calls|-1]), calls[|calls|-1], true)
  }

  function HandleRead(c: Conn, result: ReadResult, cb: Callback): Conn {
    match result
    case Data(bytes) =>
      var input := c.input + bytes;
      Calls(c.(input := input[Min(cb.retrieve, |input|)..], received := c.received + bytes), cb.calls)
    case Eof => if c.output != "" then c.(state := Disconnecting) else HandleClose(c)
    case ReadError => c
  }

  /** `n` is the result of the write: at most the readable bytes, 0 standing for no progress or an error. */
  function HandleWrite(c: Conn, n: nat, calls: seq<UserCall>): Conn {
    var k := Min(n, |c.output|);
    if !c.writing || k == 0 then c
    else
      var c1 := c.(written := c.written + c.output[..k], output := c.output[k..]);
      if c1.output != "" then c1
      else
        var c2 := Calls(c1.(writing := false), calls);
        if c2.state.Disconnecting? then ShutdownInLoop(c2) else c2
  }

  /** `handleEventWithGuard`: close, error (which only logs), read, write, in this order. */
  function HandleEvent(c: Conn, e: Revents, result: ReadResult, cb: Callback, n: nat, onComplete: seq<UserCall>): Conn {
    var c1 := if e.hup && !e.input then HandleClose(c) else c;
    var c2 := if e.input || e.priOrRdhup then HandleRead(c1, result, cb) else c1;
    if e.output then HandleWrite(c2, n, onComplete) else c2
  }

  function RunJob(c: Conn, job: Job): Conn {
    match job
    case SendJob(message) => SendInLoop(c, message)
    case ShutdownJob => ShutdownInLoop(c)
    case ForceCloseJob => ForceCloseInLoop(c)
  }

  // ------------------------------------------------------------ invariant

  predicate Open(c: Conn) { c.state.Connected? || c.state.Disconnecting? }

  predicate Inv(c: Conn) {
    && c.written + c.output == c.accepted
    && (Open(c) && c.output != "" ==> c.writing)
    && (c.reading <==> Open(c))
    && (c.writing ==> Open(c))
    && (c.state.Connecting? ==> c.jobs == [] && c.flying == NoCalls && c.accepted == "")
    && c.ups == (if c.state.Connecting? then 0 else 1)
    && c.downs == (if c.state.Disconnected? then 1 else 0)
    && !c.assertFailed
  }

  function Rank(s: StateE): nat {
    match s
    case Connecting => 0
    case Connected => 1
    case Disconnecting => 2
    case Disconnected => 3
  }

  /** What every operation keeps: the invariant, the order of the states, and the stream so far.
      While the connection stays open SHUT_WR is issued only with everything accepted written. */
  predicate Follows(c: Conn, d: Conn) {
    && Inv(d) && Rank(c.state) <= Rank(d.state)
    && c.written <= d.written && c.accepted <= d.accepted && c.received <= d.received
    && (Open(c) ==> d.shutDirty == c.shutDirty)
    && (!Open(c) ==> d.accepted == c.accepted)
  }

  lemma CallFollows(c: Conn, call: UserCall, inLoop: bool)
    requires Inv(c)
    ensures Follows(c, Call(c, call, inLoop))
    ensures !Open(c) ==> Call(c, call, inLoop) == c
    ensures Open(c) ==> Open(Call(c, call, inLoop))
    ensures Call(c, call, inLoop).received == c.received && Call(c, call, inLoop).written == c.written
  {
    match call
    case Send(message) => if c.state.Connected? && inLoop { SendFollows(c, message); }
    case Shutdown =>
    case ForceClose =>
  }

  lemma SendFollows(c: Conn, message: string)
    requires Inv(c) && c.state.Connected?
    ensures Follows(c, SendInLoop(Take(c, message), message))
  {
    assert c.written + (c.output + message) == c.accepted + message;
  }

  lemma PushFollows(c: Conn, job: Job)
    requires Inv(c) && c.flying.Has(job)
    ensures Follows(c, PushJob(c, job)) && PushJob(c, job).state == c.state
  {
  }

  lemma {:induction false} CallsFollow(c: Conn, calls: seq<UserCall>)
    requires Inv(c)
    ensures Follows(c, Calls(c, calls))
    ensures !Open(c) ==> Calls(c, calls) == c
    ensures Open(c) ==> Open(Calls(c, calls))
    ensures Calls(c, calls).received == c.received && Calls(c, calls).written == c.written
  {
    if calls != [] {
      var init := calls[..|calls|-1];
      CallsFollow(c, init);
      CallFollows(Calls(c, init), calls[|calls|-1], true);
    }
  }

  lemma HandleReadFollows(c: Conn, result: ReadResult, cb: Callback)
    requires Inv(c) && Open(c)
    ensures Follows(c, HandleRead(c, result, cb))
  {
    if result.Data? {
      var input := c.input + result.bytes;
      CallsFollow(c.(input := input[Min(cb.retrieve, |input|)..], received := c.received + result.bytes), cb.calls);
    }
  }

  lemma HandleWriteFollows(c: Conn, n: nat, calls: seq<UserCall>)
    requires Inv(c)
    ensures Follows(c, HandleWrite(c, n, calls))
    ensures Open(c) ==> Open(HandleWrite(c, n, calls))
  {
    var k := Min(n, |c.output|);
    if c.writing && k != 0 {
      var c1 := c.(written := c.written + c.output[..k], output := c.output[k..]);
      assert c1.written + c1.output == c.written + (c.output[..k] + c.output[k..]) == c.accepted;
      if c1.output == "" {
        CallsFollow(c1.(writing := false), calls);
      }
    }
  }

  /** Dispatching an event of an open connection, given that a hang-up without input
      carries no priority or half-close bit. */
  lemma HandleEventFollows(c: Conn, e: Revents, result: ReadResult, cb: Callback, n: nat, onComplete: seq<UserCall>)
    requires Inv(c) && Open(c) && !(e.hup && !e.input && e.priOrRdhup)
    ensures Follows(c, HandleEvent(c, e, result, cb, n, onComplete))
  {
    var c1 := if e.hup && !e.input then HandleClose(c) else c;
    var c2 := if e.input || e.priOrRdhup then HandleRead(c1, result, cb) else c1;
    if e.input || e.priOrRdhup { HandleReadFollows(c1, result, cb); }
    HandleWriteFollows(c2, n, onComplete);
  }

  /** Exactly which event sets can break the state machine: with a hang-up without input that also
      carries a priority or half-close bit, the read handler runs on a closed connection, and an
      end of file there fails the assertion or takes the state back to Disconnecting. */
  lemma DispatchSafeIff(c: Conn, e: Revents)
    requires Inv(c) && Open(c)
    ensures (forall result, cb, n, calls :: Follows(c, HandleEvent(c, e, result, cb, n, calls)))
            <==> !(e.hup && !e.input && e.priOrRdhup)
  {
    if e.hup && !e.input && e.priOrRdhup {
      var d := HandleEvent(c, e, Eof, Callback(0, []), 0, []);
      assert d.assertFailed || d.state.Disconnecting?;
      assert !Follows(c, d);
    } else {
      forall result, cb, n, calls ensures Follows(c, HandleEvent(c, e, result, cb, n, calls)) {
        HandleEventFollows(c, e, result, cb, n, calls);
      }
    }
  }

  lemma RunJobFollows(c: Conn, job: Job)
    requires Inv(c) && !c.state.Connecting?
    ensures Inv(RunJob(c, job)) && Rank(c.state) <= Rank(RunJob(c, job).state)
    ensures c.written == RunJob(c, job).written && c.accepted <= RunJob(c, job).accepted
    ensures c.received == RunJob(c, job).received && RunJob(c, job).jobs == c.jobs
    ensures Open(c) ==> RunJob(c, job).shutDirty == c.shutDirty
    ensures c.state.Disconnected? ==> RunJob(c, job).state.Disconnected? && RunJob(c, job).accepted == c.accepted
  {
    if job.SendJob? {
      assert c.written + (c.output + job.message) == c.accepted + job.message;
    }
  }

  /** Exactly when `shutdownInLoop` sends SHUT_WR before everything appended so far has been written: when the
      connection was closed first, with output left over. */
  lemma ShutdownDirtyIff(c: Conn)
    requires Inv(c) && !c.shutDirty
    ensures ShutdownInLoop(c).shutDirty <==> c.state.Disconnected? && c.output != ""
  {
  }

  // ----------------------------------------------------------------- runs

  datatype Step =
    | Establish
    | User(call: UserCall, inLoop: bool)
    | Push(job: Job)
    | Event(e: Revents, result: ReadResult, cb: Callback, n: nat, onComplete: seq<UserCall>)
    | NextJob

  predicate Enabled(c: Conn, a: Step) {
    match a
    case Establish => c.state.Connecting?
    case User(_, _) => true
    case Push(job) => c.flying.Has(job)
      // the kernel reports events only for a channel with some interest
    case Event(e, _, _, _, _) => c.reading && !(e.hup && !e.input && e.priOrRdhup)
    case NextJob => c.jobs != []
  }

  function Apply(c: Conn, a: Step): Conn
    requires Enabled(c, a)
  {
    match a
    case Establish => ConnectEstablished(c)
    case User(call, inLoop) => Call(c, call, inLoop)
    case Push(job) => PushJob(c, job)
    case Event(e, result, cb, n, onComplete) => HandleEvent(c, e, result, cb, n, onComplete)
    case NextJob => RunJob(c.(jobs := c.jobs[1..]), c.jobs[0])
  }

  ghost predicate Reaches(c: Conn, steps: seq<Step>, d: Conn)
    decreases |steps|
  {
    if steps == [] then c == d
    else Enabled(c, steps[0]) && Reaches(Apply(c, steps[0]), steps[1..], d)
  }

  /** A run goes on by one step. */
  lemma {:induction false} RunOn(c: Conn, steps: seq<Step>, d: Conn, a: Step)
    requires Reaches(c, steps, d) && Enabled(d, a)
    ensures Reaches(c, steps + [a], Apply(d, a))
    decreases |steps|
  {
    if steps == [] {
      assert [a][1..] == [] && steps + [a] == [a];
    } else {
      RunOn(Apply(c, steps[0]), steps[1..], d, a);
      assert (steps + [a])[1..] == steps[1..] + [a];
    }
  }

  lemma StepFollows(c: Conn, a: Step)
    requires Inv(c) && Enabled(c, a)
    ensures Follows(c, Apply(c, a)) || (!Open(c) && Inv(Apply(c, a)) && Rank(c.state) <= Rank(Apply(c, a).state))
  {
    match a
    case Establish =>
    case User(call, inLoop) => CallFollows(c, call, inLoop);
    case Push(job) => PushFollows(c, job);
    case Event(e, result, cb, n, onComplete) => HandleEventFollows(c, e, result, cb, n, onComplete);
    case NextJob => RunJobFollows(c.(jobs := c.jobs[1..]), c.jobs[0]);
  }

  lemma {:induction false} RunInv(c: Conn, steps: seq<Step>, d: Conn)
    requires Inv(c) && Reaches(c, steps, d)
    ensures Inv(d) && Rank(c.state) <= Rank(d.state)
    decreases |steps|
  {
    if steps != [] {
      StepFollows(c, steps[0]);
      RunInv(Apply(c, steps[0]), steps[1..], d);
    }
  }

  /** In every run: what has been written followed by what is buffered is exactly what was accepted,
      buffered output means write interest until the connection is closed, the states only move forward, there is one
      UP callback and one DOWN callback at most, and no assertion fails. */
  lemma StreamAndLifecycle(steps: seq<Step>, d: Conn)
    requires Reaches(Fresh, steps, d)
    ensures d.written + d.output == d.accepted
    ensures d.output != "" && !d.state.Disconnected? ==> d.writing
    ensures d.ups == (if d.state.Connecting? then 0 else 1) && d.downs == (if d.state.Disconnected? then 1 else 0)
    ensures !d.assertFailed
  {
    RunInv(Fresh, steps, d);
  }

  /** In every run up to the close, SHUT_WR is issued only when everything appended so far has been written. */
  lemma {:induction false} CleanShutdownWhileOpen(c: Conn, steps: seq<Step>, d: Conn)
    requires Inv(c) && !c.shutDirty && Reaches(c, steps, d) && !d.state.Disconnected?
    ensures !d.shutDirty
    decreases |steps|
  {
    if steps != [] {
      var c1 := Apply(c, steps[0]);
      StepFollows(c, steps[0]);
      RunInv(c1, steps[1..], d);
      assert !c1.shutDirty;
      CleanShutdownWhileOpen(c1, steps[1..], d);
    }
  }

  /** A run in which SHUT_WR overtakes accepted bytes: another thread shuts down, and the peer's
      hang-up closes the connection before the queued functor runs. */
  lemma ShutdownAfterCloseIsDirty() returns (steps: seq<Step>, d: Conn)
    ensures Reaches(Fresh, steps, d) && d.state.Disconnected? && d.shutDirty
  {
    var hangUp := Event(Revents(true, false, false, false, false), ReadError, Callback(0, []), 0, []);
    steps, d := Extend([], Fresh, Establish);
    steps, d := Extend(steps, d, User(Send("x"), true));
    steps, d := Extend(steps, d, User(Shutdown, false));
    steps, d := Extend(steps, d, Push(ShutdownJob));
    steps, d := Extend(steps, d, hangUp);
    steps, d := Extend(steps, d, NextJob);
  }

  lemma Extend(front: seq<Step>, c: Conn, a: Step) returns (steps: seq<Step>, d: Conn)
    requires Reaches(Fresh, front, c) && Enabled(c, a)
    ensures Reaches(Fresh, steps, d) && steps == front + [a] && d == Apply(c, a)
  {
    RunOn(Fresh, front, c, a);
    steps, d := front + [a], Apply(c, a);
  }

  // ------------------------------------------------------- the echo server

  /** Only the message callback of the echo server sends: it sends back all the input there is. */
  predicate EchoStep(c: Conn, a: Step) {
    match a
    case Event(_, result, cb, _, onComplete) =>
      onComplete == [] && (result.Data? ==>
        var input := c.input + result.bytes;
        cb.retrieve >= |input| && cb.calls == [Send(input)])
    case User(call, _) => !call.Send?
    case _ => true
  }

  ghost predicate EchoRun(c: Conn, steps: seq<Step>)
    decreases |steps|
  {
    steps == [] || (Enabled(c, steps[0]) && EchoStep(c, steps[0]) && EchoRun(Apply(c, steps[0]), steps[1..]))
  }

  /** While connected everything received has been accepted; afterwards at least a prefix of it. */
  predicate EchoInv(c: Conn) {
    && c.input == "" && c.accepted <= c.received
    && (c.state.Connecting? || c.state.Connected? ==> c.accepted == c.received)
    && (forall j :: 0 <= j < |c.jobs| ==> !c.jobs[j].SendJob?) && c.flying.sends == multiset{}
  }

  lemma EchoStepInv(c: Conn, a: Step)
    requires Inv(c) && EchoInv(c) && Enabled(c, a) && EchoStep(c, a)
    ensures EchoInv(Apply(c, a))
  {
    match a
    case Establish =>
    case User(call, inLoop) => EchoCall(c, call, inLoop);
    case Push(job) =>
    case NextJob => EchoJob(c);
    case Event(e, result, cb, n, onComplete) => EchoEvent(c, e, result, cb, n);
  }

  lemma EchoCall(c: Conn, call: UserCall, inLoop: bool)
    requires EchoInv(c) && !call.Send?
    ensures EchoInv(Call(c, call, inLoop))
  {
  }

  lemma EchoJob(c: Conn)
    requires EchoInv(c) && c.jobs != []
    ensures EchoInv(RunJob(c.(jobs := c.jobs[1..]), c.jobs[0]))
  {
    assert !c.jobs[0].SendJob?;
  }

  lemma EchoEvent(c: Conn, e: Revents, result: ReadResult, cb: Callback, n: nat)
    requires Inv(c) && EchoInv(c) && c.reading && EchoStep(c, Event(e, result, cb, n, []))
    requires !(e.hup && !e.input && e.priOrRdhup)
    ensures EchoInv(HandleEvent(c, e, result, cb, n, []))
  {
    var c1 := if e.hup && !e.input then HandleClose(c) else c;
    if e.input || e.priOrRdhup {
      assert c1 == c;
      if result.Data? { EchoRead(c, result.bytes, cb); }
      EchoWrite(HandleRead(c, result, cb), n);
    } else {
      EchoWrite(c1, n);
    }
  }

  lemma EchoWrite(c: Conn, n: nat)
    requires EchoInv(c)
    ensures EchoInv(HandleWrite(c, n, []))
  {
  }

  lemma EchoRead(c: Conn, bytes: string, cb: Callback)
    requires EchoInv(c) && !c.state.Connecting?
    requires cb.retrieve >= |c.input + bytes| && cb.calls == [Send(c.input + bytes)]
    ensures EchoInv(HandleRead(c, Data(bytes), cb))
  {
    var got := c.(input := "", received := c.received + bytes);
    assert c.input + bytes == bytes;
    assert (c.input + bytes)[|c.input + bytes|..] == "";
    assert cb.calls[..0] == [];
    assert Calls(got, []) == got;
    assert HandleRead(c, Data(bytes), cb) == Calls(got, cb.calls) == Call(got, Send(bytes), true);
  }

  lemma {:induction false} EchoRunInv(c: Conn, steps: seq<Step>, d: Conn)
    requires Inv(c) && EchoInv(c) && EchoRun(c, steps) && Reaches(c, steps, d)
    ensures Inv(d) && EchoInv(d)
    decreases |steps|
  {
    if steps != [] {
      StepFollows(c, steps[0]);
      EchoStepInv(c, steps[0]);
      EchoRunInv(Apply(c, steps[0]), steps[1..], d);
    }
  }

  /** The echo server: what it has written to a client is a prefix of what the client sent. */
  lemma EchoIsPrefix(steps: seq<Step>, d: Conn)
    requires EchoRun(Fresh, steps) && Reaches(Fresh, steps, d)
    ensures d.written <= d.received
  {
    EchoRunInv(Fresh, steps, d);
    assert d.written <= d.accepted;
  }
}
