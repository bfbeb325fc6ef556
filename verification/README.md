# A verified model of cc_learning

Dafny models of the concurrent protocols and data structures of this collection of C and C++
components, with proofs of what they are for. Each component is a state machine or a class
with the source's own branches and constants.

| files | component |
|---|---|
| `RingIndex`, `SpscProtocol`, `EnqueueProtocol`, `SpscQueue`, `LockedQueue` | the lock-free and the locked ring buffer |
| `ThreadPoolProtocol`, `ElasticPool`, `ThreadPool` | the elastic priority thread pool |
| `EventLoopProtocol`, `EventLoop` | the reactor's task queue and its eventfd wakeup |
| `Poller` | channels, the epoll poller and the kernel's interest set |
| `ConnectionProtocol`, `ShutdownProtocol`, `HalfClose`, `TcpConnection` | one TCP connection, what becomes of the messages sent, and its half-close |
| `ServerProtocol`, `ServerRefinement`, `RoundRobin`, `TeardownProtocol`, `TcpServer` | many connections over many loops, and their teardown |
| `TimerSpec`, `TimerList`, `MinHeap`, `TimerHeap`, `TimerSchedule`, `TimerCallbacks`, `TimerQueue`, `TimerEquivalence` | the two timer managers and what they have in common |
| `Buffer` | the byte buffer |
| `HttpText`, `HttpRequest`, `RequestLine`, `HttpResponse`, `HttpLongLines`, `HttpServer`, `HttpService` | HTTP/1.0 (RFC 1945): parsing, framing, printing, serving |
| `PoolSpec`, `MemoryPool` | the fixed-block memory pool |
| `Basics` | small shared definitions |

A concurrent component comes in two files. The protocol file has the states, one step per
atomic load, exchange, slot access or locked section, the invariants, and the theorems over all
runs (`Reaches`). For connections and loops one step is a handler or functor of a loop, or what
another thread does at once: the check of `state_` at the start of its call, or the locked push at
its end. The class file has the source's fields, and each of its methods is proved to
do exactly a step of the protocol: its contract equates the new `View()` with the protocol's
function of the old one, so that what is proved of the runs holds of the methods. The server of
many connections refines the protocol of one connection (`ConnectionsAreRuns`). A data structure is a class
with a validity predicate, and a specification on sequences, multisets or block numbers.

`dafny verify dfyconfig.toml` checks the project.

## What turned out not to hold

Four laws that the code suggests fail for some inputs. The model keeps the code as it is, gives a
failing input, and proves exactly when the law holds.

- The pool's `used_count` is not the number of used blocks once a block has been reused, because
  the free-list branch of `pool_alloc` does not count (`UsedIsNotLive`, `UsedIsLiveIff`).
- A loop may sleep on queued work if the loop thread itself queued it before `loop()`
  (`EarlyPushSleeps`, `PollsCoveredIff`).
- SHUT_WR can be issued before every message that `send` has taken is written, in three ways: the
  connection is closed before a queued `shutdownInLoop` runs (`ShutdownAfterCloseIsDirty`), or the
  loop thread shuts down while the message of another thread is queued (`QueuedSendIsOvertaken`),
  or while that thread is still between the check and the push of its `send`
  (`InFlightSendIsOvertaken`). `ShutdownEarlyIff` says exactly when it happens, and
  `NothingAfterShutdown` that otherwise nothing follows. And it may never be issued: an empty message
  turns write interest on with nothing to write (`EmptySendHoldsUpShutdown`, `DrainedIsShut`). A hang-up without input that carries a
  priority or half-close bit runs the read handler on a closed connection (`DispatchSafeIff`).
- A custom header line that does not fit the 256-byte line buffer loses its line end
  (`LongHeaderFails`). Printing then parsing is the identity exactly if all lines fit
  (`LinesMustFit`), for headers that override no default; if one overrides `Connection`, a line
  may be cut without harm (`OverrideHidesCut`), though never the last one (`LastMustFit`).

Two smaller conditions are stated in the same way: `pool_init` computes the size of the arena in
`size_t` (`MemoryPool.Pool.constructor`), and the pool's blocks are aligned only for suitable block sizes
(`AlignedIff`). ring_buffer/README.md:55-58 says that `dequeue_bulk` reserves the slots before it
copies; the code copies first, and the model follows the code.

## Assumptions

- Sequential consistency for the lock-free steps; one consumer; indices of the concurrent queue
  are unbounded there (the locked queue has real 64-bit indices).
- Constructing a thread pool is one step. The check and the assignment of `state_` in `shutdown`
  and `forceClose` are one step; the push that follows in another thread is a later one.
- A new connection's name is not that of one still in the map, though names may recur; fds of
  channels are distinct; and a hang-up without input carries no priority or half-close bit (see
  `DispatchSafeIff`).
- What an UP or DOWN callback does to its connection counts as user calls right behind the step.
- `malloc` returns memory whose addresses, one behind the end included, are pointers.
- The clock is one integer in microseconds, positive when the timerfd is read, and any later value
  when it is read again; system calls have
  any outcome their documentation allows, passed in as a parameter.
- `std::stoi`, the file system and the table of MIME types are parameters of the HTTP server.

## Model

| member | source | states |
|---|---|---|
| `SpscProtocol.OutputIsPrefix` | ring_buffer/include/ring_buffer.h:50-119 | in every run of any number of producers and one consumer, interleaved at single loads, exchanges, slot writes and slot copies, the consumer's output is a prefix of the accepted batches in the order of their reservations |
| `SpscProtocol.IndicesAndTiling` | ring_buffer/include/ring_buffer.h:51-86 | in every run read ≤ commit ≤ write ≤ read + capacity, every index of [commit, write) belongs to an outstanding batch, and outstanding batches neither overlap nor leave that range |
| `SpscProtocol.NoOverwrite` | ring_buffer/include/ring_buffer.h:75-78 | in every run a producer about to store an item shares its slot with no index that is readable, being copied, or reserved by another producer, despite its stale loads |
| `SpscProtocol.AvailableNotNegative` | ring_buffer/include/ring_buffer.h:55-70 | in every run the unsigned subtraction behind `available` does not go below zero |
| `SpscProtocol.GivesUpWhenFull` | ring_buffer/include/ring_buffer.h:51-59 | `enqueue_bulk` gives up exactly if it has nothing to enqueue or no room behind the index it loaded, and then the queue is full at that moment although the index may be stale |
| `SpscProtocol.EmptyWhenNothingCommitted` | ring_buffer/include/ring_buffer.h:96-102 | `dequeue_bulk` returns nothing exactly if nothing was wanted or nothing is committed at that moment, and otherwise goes for all that is wanted and committed |
| `EnqueueProtocol.StepKeepsCall` | ring_buffer/include/ring_buffer.h:51-72 | a call that has not reserved yet ends, by any step of any thread, only if nothing is left to enqueue or the queue is full at that moment; otherwise it keeps its items, and its count only falls to the room seen where the read index is loaded |
| `EnqueueProtocol.StepKeepsBatch` | ring_buffer/include/ring_buffer.h:75-87 | a call begins with all it was given, and a reserved batch keeps items, count and place until it is committed |
| `EnqueueProtocol.CallKeepsItems` | ring_buffer/include/ring_buffer.h:51-72 | the same for the items and the count over any run during the call |
| `EnqueueProtocol.AloneReserves` | ring_buffer/include/ring_buffer.h:51-72 | from every reachable state a producer alone, stale loads and all, reserves exactly the lesser of what it asks for and the room there is, in at most four steps |
| `EnqueueProtocol.NotRefused` | ring_buffer/include/ring_buffer.h:51-72 | so a call that comes to a queue with room is not refused |
| `SpscProtocol.OldestAdvances` | ring_buffer/include/ring_buffer.h:81-86 | the commit wait cannot deadlock: the oldest outstanding producer can always move, each own move brings its commit one step nearer, and no other thread's move sets it back |
| `SpscProtocol.OldestCommits` | ring_buffer/include/ring_buffer.h:75-86 | from every reachable state with an outstanding batch its oldest producer commits by its own steps alone, in exactly as many steps as remain |
| `SpscProtocol.CommitterIsOldest` | ring_buffer/include/ring_buffer.h:81 | the producer whose batch starts at the commit index is the oldest outstanding one |
| `SpscProtocol.IndexOwned` | ring_buffer/include/ring_buffer.h:61-73 | a reserved and not yet committed index lies in the batch of some outstanding producer |
| `SpscProtocol.BatchesDisjoint` | ring_buffer/include/ring_buffer.h:61-73 | different outstanding producers own disjoint index ranges |
| `SpscProtocol.WriteIsExclusive` | ring_buffer/include/ring_buffer.h:75-78 | the slot written next is the slot of no other index that is live |
| `SpscProtocol.StepInv` | ring_buffer/include/ring_buffer.h:50-119 | every step of every thread keeps order, tiling, registers and contents |
| `SpscProtocol.RunInv` | ring_buffer/include/ring_buffer.h:50-119 | the same over whole runs; nothing accepted or received is ever taken back |
| `SpscQueue.Queue.LoadWriteIdx` | ring_buffer/include/ring_buffer.h:51 | a batch starts from the write index as it is now; from here on the value may go stale |
| `SpscQueue.Queue.ConsumerLoadReadIdx` | ring_buffer/include/ring_buffer.h:96 | the consumer starts from the read index as it is now |
| `SpscQueue.Queue.LoadReadIdx` | ring_buffer/include/ring_buffer.h:52-59 | with the read index loaded the count shrinks to the room there is, and a full queue makes the call give up |
| `SpscQueue.Queue.CompareExchangeWrite` | ring_buffer/include/ring_buffer.h:63-72 | the exchange reserves exactly if it is not spurious and the index is still the one loaded; a failure reloads and shrinks |
| `SpscQueue.Queue.StoreItem` | ring_buffer/include/ring_buffer.h:77 | one item goes into the masked slot of its index |
| `SpscQueue.Queue.TestCommitIdx` | ring_buffer/include/ring_buffer.h:81-83 | the spin loop ends exactly when the commit index is the start of the batch |
| `SpscQueue.Queue.StoreCommitIdx` | ring_buffer/include/ring_buffer.h:86-87 | the commit index moves by the number returned |
| `SpscQueue.Queue.ConsumerLoadCommitIdx` | ring_buffer/include/ring_buffer.h:97-102 | the consumer takes what is committed, at most what it wants |
| `SpscQueue.Queue.CopyItem` | ring_buffer/include/ring_buffer.h:105-107 | one item is copied out of the masked slot of its index |
| `SpscQueue.Queue.CompareExchangeRead` | ring_buffer/include/ring_buffer.h:110-118 | releasing the slots hands over exactly the next items of the log; a spurious failure changes nothing |
| `SpscQueue.Queue.EnqueueBulk` | ring_buffer/include/ring_buffer.h:50-88 | run without interruption it accepts as many items as there is room for and they are readable at once |
| `SpscQueue.Queue.DequeueBulk` | ring_buffer/include/ring_buffer.h:94-119 | run without interruption it returns the oldest committed items in order, at most as many as wanted |
| `RingIndex.SlotsDiffer` | ring_buffer/include/ring_buffer.h:77 | two indices less than a capacity apart never share a slot |
| `RingIndex.MaskIsRemainder` | ring_buffer/include/ring_buffer.h:13-14 | masking with `Capacity - 1` is the remainder for every capacity that passes the compile-time check |
| `LockedQueue.SlotAfterWrap` | ring_buffer/include/ring_buffer.h:13-14 | wrapping around 2^64 does not change the slot, because the capacity divides 2^64 |
| `LockedQueue.MaskedSlot` | ring_buffer/include/ring_buffer.h:155 | the mask of a wrapped sum picks the slot of the unwrapped sum |
| `LockedQueue.NextFreeSlot` | ring_buffer/include/ring_buffer.h:148-156 | the slot written next is the one behind the last item, whatever the indices have wrapped to |
| `LockedQueue.WindowStore` | ring_buffer/include/ring_buffer.h:154-158 | storing in the next free slot appends to the queue |
| `LockedQueue.WindowDrop` | ring_buffer/include/ring_buffer.h:176-180 | advancing the wrapping read index drops the oldest items |
| `LockedQueue.Queue.EnqueueBulk` | ring_buffer/include/ring_buffer.h:142-160 | with 64-bit wrapping indices: appends as many items as there is room for, and says how many |
| `LockedQueue.Queue.DequeueBulk` | ring_buffer/include/ring_buffer.h:164-182 | with 64-bit wrapping indices: hands over the oldest items in order and leaves the rest of `out` alone |
| `LockedQueue.FirstInFirstOut` | ring_buffer/include/ring_buffer.h:142-182 | over any run of calls, what was handed over followed by what is left is what was there followed by what was accepted |
| `LockedQueue.Execute` | ring_buffer/include/ring_buffer.h:142-182 | calls on a real queue accept, deliver and leave exactly that |
| `ThreadPoolProtocol.TasksAccounted` | thread_pool/ThreadPool.h:241-337 | in every run each accepted task is in exactly one of queue, progress, done and dropped; the pool size stays between core and max(core, max) until the join swap; nothing is dropped without `stop_immediately` |
| `ElasticPool.GrowsWithDemand` | thread_pool/ThreadPool.h:270-272 | in every run up to a stop there is a thread for every queued task, unless the pool has as many as it may |
| `ElasticPool.SubmitAddsOne` | thread_pool/ThreadPool.h:270-272 | a submission adds at most one thread, ready and in the pool, and leaves the others alone |
| `ElasticPool.IdleThreadLeaves` | thread_pool/ThreadPool.h:304-308 | a thread above core size whose wait is over with nothing to do can only leave, and only it leaves the pool |
| `ElasticPool.CoreThreadGoesRound` | thread_pool/ThreadPool.h:309-312 | at core size it goes round instead |
| `ElasticPool.ShrinksToCore` | thread_pool/ThreadPool.h:296-308 | from every reachable state without a task in which all threads are asleep the pool comes back to its core, in two steps of each surplus thread |
| `ElasticPool.MostUrgentFirst` | thread_pool/ThreadPool.h:220-226 | no queued task has a smaller priority number than the one started |
| `ElasticPool.StopDropsQueue` | thread_pool/ThreadPool.h:176-178 | `stop_immediately` drops every queued task, none of which has begun |
| `ElasticPool.DroppedNeverRuns` | thread_pool/ThreadPool.h:176-178 | and in no run does a dropped task ever run |
| `ThreadPoolProtocol.StopReturnsWithAllDone` | thread_pool/ThreadPool.h:147-183 | in every run, when the stop call that took effect returns, nothing is queued or running and all threads are gone; after `wait_and_stop` every task ever accepted is done |
| `ThreadPoolProtocol.NoLostWakeup` | thread_pool/ThreadPool.h:253-326 | in every run a non-empty queue means a pending notification or a worker that is not asleep, and as long as one sleeps there are enough of them for all queued tasks |
| `ThreadPoolProtocol.StepDecreases` | thread_pool/ThreadPool.h:289-383 | after a stop has begun every step of every thread decreases one measure |
| `ThreadPoolProtocol.StopRunsAreFinite` | thread_pool/ThreadPool.h:147-183 | after a stop has begun no run has more steps than the measure |
| `ThreadPoolProtocol.StopNotStuck` | thread_pool/ThreadPool.h:147-183 | after a stop has begun some thread can always move until the stop call has returned |
| `ThreadPoolProtocol.StopCanReturn` | thread_pool/ThreadPool.h:147-183 | from every reachable state the stop call that has begun can run to its return |
| `ThreadPoolProtocol.StepInv` | thread_pool/ThreadPool.h:241-383 | every step of every thread keeps structure, accounting, wakeup cover and the rules of leaving |
| `ThreadPoolProtocol.RunInv` | thread_pool/ThreadPool.h:241-383 | the same over whole runs |
| `ThreadPool.Pool.Create` | thread_pool/ThreadPool.h:68-81 | a pool without core threads is refused; any other starts in the protocol's initial state |
| `ThreadPool.Pool.SubmitImpl` | thread_pool/ThreadPool.h:241-278 | refuses exactly when the pool is shutting down; otherwise queues, scales up by the source's test, and owes one notification |
| `ThreadPool.Pool.NotifyOneOf` | thread_pool/ThreadPool.h:276 | one notification releases one waiting thread |
| `ThreadPool.Pool.WorkerSection` | thread_pool/ThreadPool.h:293-327 | one pass of the locked section is one step of the protocol: sleep, go round, scale down, return, or take a task that no queued task precedes |
| `ThreadPool.Pool.RemoveThisThread` | thread_pool/ThreadPool.h:354-364 | drops the first handle of the calling thread |
| `ThreadPool.Pool.FinishTask` | thread_pool/ThreadPool.h:330-335 | the task that ran becomes done |
| `ThreadPool.Pool.WaitAndStopSection` | thread_pool/ThreadPool.h:148-155 | only the first stop call takes effect |
| `ThreadPool.Pool.StopImmediatelySection` | thread_pool/ThreadPool.h:170-180 | takes effect unless a stop has; the queued tasks are dropped |
| `ThreadPool.Pool.NotifyAllWaiting` | thread_pool/ThreadPool.h:157-181 | releases every waiting thread |
| `ThreadPool.Pool.SwapWorkers` | thread_pool/ThreadPool.h:371-376 | the handles move to the stopping thread |
| `ThreadPool.Pool.JoinNext` | thread_pool/ThreadPool.h:378-382 | a join succeeds for a thread that has returned |
| `ThreadPool.Pool.StopReturns` | thread_pool/ThreadPool.h:147-183 | at the return nothing is queued or running, and after `wait_and_stop` everything accepted is done |
| `EventLoopProtocol.ExecutedIsPrefix` | reactor_net/src/EventLoop.cpp:113-124 | in every run the functors executed are a prefix of those queued: at most once each, in the order of the pushes |
| `EventLoopProtocol.PollsCoveredIff` | reactor_net/src/EventLoop.cpp:74-92 | no poll of a running loop can sleep on queued work, in any run, if and only if the queue is empty or a foreign wakeup is there or due when `loop()` is entered |
| `EventLoopProtocol.NothingQueuedBefore` | reactor_net/src/EventLoop.cpp:113-124 | the condition a caller can check: the loop thread queued nothing before `loop()` |
| `EventLoopProtocol.EarlyPushSleeps` | reactor_net/src/EventLoop.cpp:119-123 | a run in which a functor queued by the loop thread before `loop()` lets the first poll sleep |
| `EventLoopProtocol.BlockedPollIsBeingWoken` | reactor_net/src/EventLoop.cpp:80-103 | a poll that could block with work queued, or a quit requested, is about to be ended by the thread that queued or requested it |
| `EventLoopProtocol.IterationRunsAll` | reactor_net/src/EventLoop.cpp:85-91 | work queued when a poll returns has run at the next test of the loop |
| `EventLoopProtocol.NoPollAfterQuit` | reactor_net/src/EventLoop.cpp:80-103 | a loop asked to quit while it runs stays asked and polls no more |
| `EventLoopProtocol.QuitLeaves` | reactor_net/src/EventLoop.cpp:80-103 | after a `quit` in a running loop, from any thread, its own steps run what is pending and end with the return of `loop()` at the next test |
| `EventLoopProtocol.WakeupIsUsedUp` | reactor_net/src/EventLoop.cpp:175-182 | a handled wakeup is used up: with nothing queued the loop comes to a poll that can block |
| `EventLoop.Loop.Wakeup` | reactor_net/src/EventLoop.cpp:166-173 | adds one to the eventfd counter |
| `EventLoop.Loop.QueueInLoop` | reactor_net/src/EventLoop.cpp:113-124 | from the loop thread: wakes the loop only while functors are being called |
| `EventLoop.Loop.ForeignQueueInLoop` | reactor_net/src/EventLoop.cpp:114-117 | from another thread: the push, with a wakeup due |
| `EventLoop.Loop.RunInLoop` | reactor_net/src/EventLoop.cpp:105-111 | in the loop thread the functor is called at once, elsewhere it is queued with a wakeup due |
| `EventLoop.Loop.EnterLoop` | reactor_net/src/EventLoop.cpp:74-78 | entering clears the quit flag |
| `EventLoop.Loop.ReadWakeupFd` | reactor_net/src/EventLoop.cpp:175-182 | reading the eventfd resets its counter |
| `EventLoop.Loop.SwapFunctors` | reactor_net/src/EventLoop.cpp:186-190 | the pending functors become the batch |
| `EventLoop.Loop.DoPendingFunctors` | reactor_net/src/EventLoop.cpp:184-195 | runs exactly what was pending, once and in order; what the functors queue stays pending and leaves a wakeup behind |
| `EventLoop.Loop.Quit` | reactor_net/src/EventLoop.cpp:97-103 | sets the flag, with a wakeup due from another thread |
| `Poller.RegistrationInStep` | reactor_net/src/EPollPoller.cpp:44-75 | for every sequence of requests on channels with distinct fds no `epoll_ctl` fails and index, channel map, mask and the kernel's set agree throughout |
| `Poller.HandleConsistent` | reactor_net/src/EPollPoller.cpp:44-75 | the same for one request, with the mask it leaves; removing makes the channel as new |
| `Poller.DisableAllUnregistersIff` | reactor_net/src/Channel.cpp:42-45 | `disableAll` takes the fd out of the kernel's set exactly if it was in; otherwise it puts it back with an empty mask, and `remove` still clears it |
| `Poller.RequestSwitches` | reactor_net/src/Channel.cpp:22-56 | each request switches its own event in what the kernel reports and leaves the other as it was; `disableAll` and `remove` end both |
| `Poller.EPollPoller.UpdateChannel` | reactor_net/src/EPollPoller.cpp:44-65 | ADD, MOD or DEL by index and mask, with the failures counted, and no other fd touched |
| `Poller.EPollPoller.RemoveChannel` | reactor_net/src/EPollPoller.cpp:67-75 | the channel leaves map and kernel, its index is -1 |
| `Poller.EPollPoller.Adopt` | reactor_net/src/Channel.cpp:7-10 | a new channel, on an fd of its own, is known to the poller, which stays consistent and leaves the others alone |
| `Poller.EPollPoller.Release` | reactor_net/src/EPollPoller.cpp:67-75 | a removed channel may be forgotten |
| `Poller.EPollPoller.Update` | reactor_net/src/EPollPoller.cpp:77-90 | one `epoll_ctl` on the kernel's set of this fd |
| `Poller.Channel.EnableReading` | reactor_net/src/Channel.cpp:22-25 | the read event joins the mask and poller and kernel follow |
| `Poller.Channel.DisableReading` | reactor_net/src/Channel.cpp:27-30 | the read event leaves the mask and poller and kernel follow |
| `Poller.Channel.EnableWriting` | reactor_net/src/Channel.cpp:32-35 | the write event joins the mask and poller and kernel follow |
| `Poller.Channel.DisableWriting` | reactor_net/src/Channel.cpp:37-40 | the write event leaves the mask and poller and kernel follow |
| `Poller.Channel.DisableAll` | reactor_net/src/Channel.cpp:42-45 | the mask becomes empty and poller and kernel follow |
| `Poller.Channel.Unregister` | reactor_net/src/Channel.cpp:52-56 | `remove`: the channel is as new |
| `ConnectionProtocol.StreamAndLifecycle` | reactor_net/src/TcpConnection.cpp:35-189 | in every run: written followed by buffered is what was accepted, buffered output means write interest until Disconnected, one UP and at most one DOWN callback, no failed assertion |
| `ConnectionProtocol.RunInv` | reactor_net/src/TcpConnection.cpp:35-189 | over whole runs the invariant holds and the state only moves forward |
| `ConnectionProtocol.CleanShutdownWhileOpen` | reactor_net/src/TcpConnection.cpp:160-174 | in every run up to the close SHUT_WR is issued only when every message already appended to the output has been written |
| `ConnectionProtocol.ShutdownDirtyIff` | reactor_net/src/TcpConnection.cpp:168-174 | SHUT_WR overtakes bytes already appended exactly if the connection was closed before, with output left |
| `ConnectionProtocol.ShutdownAfterCloseIsDirty` | reactor_net/src/TcpConnection.cpp:160-174 | a run in which it does |
| `ShutdownProtocol.MessagesConserved` | reactor_net/src/TcpConnection.cpp:130-158 | in every run each message that passed the check of `send` is appended, queued, in flight between check and push, or dropped, once; written followed by buffered are the messages appended, in order; messages are dropped only once the connection is closed |
| `ShutdownProtocol.ShutdownEarlyIff` | reactor_net/src/TcpConnection.cpp:168-174 | SHUT_WR is issued before every message taken has been written if and only if nothing is being written and a message is queued or in flight, or the connection is closed with output left or a message dropped |
| `ShutdownProtocol.NothingAfterShutdown` | reactor_net/src/TcpConnection.cpp:130-174 | after a SHUT_WR outside that condition no run takes, appends or writes anything more, and all that was taken is written, the checks and pushes of other threads being steps of their own |
| `ShutdownProtocol.CleanShutdownIfLoopSends` | reactor_net/src/TcpConnection.cpp:130-174 | what a caller can see to: if only the loop thread sends, no SHUT_WR up to the close comes too early |
| `ShutdownProtocol.QueuedSendIsOvertaken` | reactor_net/src/TcpConnection.cpp:130-174 | a run in which SHUT_WR overtakes, on an open connection, a message that another thread has queued |
| `ShutdownProtocol.InFlightSendIsOvertaken` | reactor_net/src/TcpConnection.cpp:130-174 | a run in which nothing is queued when SHUT_WR goes out, but another thread is between the check and the push of `send`: its message is appended afterwards |
| `ShutdownProtocol.PushTracks` | reactor_net/src/TcpConnection.cpp:135-136 | the push of another thread, in whatever state the connection is, moves its message from in flight to queued |
| `ShutdownProtocol.StepTracks` | reactor_net/src/TcpConnection.cpp:35-189 | every step, the check and the push of another thread's call among them, keeps the account of the messages, and what a timely SHUT_WR has settled |
| `ShutdownProtocol.RunKeeps` | reactor_net/src/TcpConnection.cpp:35-189 | the account over whole runs |
| `ConnectionProtocol.DispatchSafeIff` | reactor_net/src/Channel.cpp:70-94 | dispatching an event set keeps the state machine, whatever the callbacks do, if and only if it is no hang-up without input that carries a priority or half-close bit |
| `ConnectionProtocol.HandleEventFollows` | reactor_net/src/Channel.cpp:70-94 | dispatch keeps invariant, order of states and the stream |
| `ConnectionProtocol.HandleReadFollows` | reactor_net/src/TcpConnection.cpp:61-80 | reading, with any message callback, keeps invariant, order of states and the stream |
| `ConnectionProtocol.HandleWriteFollows` | reactor_net/src/TcpConnection.cpp:82-102 | writing, with any write-complete callback, keeps them |
| `ConnectionProtocol.CallFollows` | reactor_net/src/TcpConnection.cpp:130-182 | `send`, `shutdown` and `forceClose` in the loop, and their checks in other threads, keep them, and do nothing to a closed connection |
| `ConnectionProtocol.PushFollows` | reactor_net/src/TcpConnection.cpp:135-180 | the push of another thread keeps them, whatever the state has become since its check |
| `ConnectionProtocol.RunJobFollows` | reactor_net/src/TcpConnection.cpp:145-189 | the queued functors keep the invariant and accept nothing after the close |
| `ConnectionProtocol.EchoIsPrefix` | reactor_net/src/main.cpp:30-35 | the echo server: what it has written is a prefix of what it received |
| `HalfClose.ShutdownComes` | reactor_net/src/TcpConnection.cpp:82-182 | in every run an open connection that is shutting down and not writing has issued SHUT_WR, or a functor of `shutdown` or `forceClose` is still to run or to be queued |
| `HalfClose.DrainedIsShut` | reactor_net/src/TcpConnection.cpp:82-102 | one that is still writing issues SHUT_WR exactly with the write that takes the last of its output, everything accepted then being written; with no output at all it never does |
| `HalfClose.EmptySendHoldsUpShutdown` | reactor_net/src/TcpConnection.cpp:145-174 | a run that gets there: an empty message turns write interest on with nothing to write |
| `HalfClose.AnswerThenShut` | reactor_net/src/main.cpp:120-123 | what was sent before a shutdown leaves in whatever pieces the socket takes, and SHUT_WR follows with the last one and not before |
| `HalfClose.WritesExactly` | reactor_net/src/TcpConnection.cpp:82-102 | a writable event moves exactly what the socket takes from the output to what is written; write interest ends with the output |
| `HalfClose.ReadsExactly` | reactor_net/src/TcpConnection.cpp:61-70 | what is read goes behind the input, and the callback takes from its front only |
| `HalfClose.EofKeepsOutput` | reactor_net/src/TcpConnection.cpp:71-78 | an end of file with output pending leaves the connection open and the output to be written; without any it closes |
| `HalfClose.CallbacksSend` | reactor_net/src/TcpConnection.cpp:61-102 | the message callback and the callback for a complete write run once: what they send is behind the output |
| `HalfClose.DispatchActs` | reactor_net/src/Channel.cpp:70-94 | a hang-up without input closes, input is read, output is written |
| `HalfClose.SendIsTaken` | reactor_net/src/TcpConnection.cpp:130-139 | a connected connection takes the message, at once or in flight; any other does nothing |
| `HalfClose.SendArrives` | reactor_net/src/TcpConnection.cpp:135-158 | a message in flight is queued by its push and appended by its functor unless the connection is closed |
| `HalfClose.ShutdownBegins` | reactor_net/src/TcpConnection.cpp:160-174 | `shutdown` makes it Disconnecting, with SHUT_WR issued, deferred to the end of the output, or by a functor to come |
| `HalfClose.ForceCloseCloses` | reactor_net/src/TcpConnection.cpp:176-189 | `forceClose` queues its functor, and that closes an open connection |
| `HalfClose.DestroyedIsClosed` | reactor_net/src/TcpConnection.cpp:49-59 | `connectDestroyed` closes what is still connected and does nothing else |
| `TcpConnection.Connection.ConnectEstablished` | reactor_net/src/TcpConnection.cpp:35-47 | Connecting becomes Connected with read interest and the UP callback, as the step the run theorems cover; any other state fails the assertion |
| `TcpConnection.Connection.ConnectDestroyed` | reactor_net/src/TcpConnection.cpp:49-59 | a connection still Connected is closed with its DOWN callback; one that is closed gets no second one |
| `TcpConnection.Connection.HandleRead` | reactor_net/src/TcpConnection.cpp:61-80 | data goes to the message callback; end of file closes, or with output pending only turns the state to Disconnecting; an error changes nothing |
| `TcpConnection.Connection.HandleWrite` | reactor_net/src/TcpConnection.cpp:82-102 | what is written leaves the output; when it is empty write interest ends, and a Disconnecting connection shuts down |
| `TcpConnection.Connection.HandleClose` | reactor_net/src/TcpConnection.cpp:104-117 | Disconnected, no interest left, one DOWN callback; closing a closed connection fails the assertion |
| `TcpConnection.Connection.HandleEvent` | reactor_net/src/Channel.cpp:70-94 | close, error, read and write handlers run in the source's order; the state only moves forward |
| `TcpConnection.Connection.Send` | reactor_net/src/TcpConnection.cpp:130-139 | only when Connected: appends at once in the loop thread; in another thread the message is taken by this check, with its push still to come |
| `TcpConnection.Connection.SendInLoop` | reactor_net/src/TcpConnection.cpp:145-158 | appends and makes sure of write interest, unless Disconnected |
| `TcpConnection.Connection.Shutdown` | reactor_net/src/TcpConnection.cpp:160-166 | only when Connected: Disconnecting at once, SHUT_WR considered now in the loop thread; in another thread the push of the functor is still to come |
| `TcpConnection.Connection.ShutdownInLoop` | reactor_net/src/TcpConnection.cpp:168-174 | SHUT_WR unless output is being written |
| `TcpConnection.Connection.ForceClose` | reactor_net/src/TcpConnection.cpp:176-182 | only when open: Disconnecting at once, the close itself always by a functor, queued now in the loop thread and by a later push elsewhere |
| `TcpConnection.Connection.QueueInLoop` | reactor_net/src/TcpConnection.cpp:135-180 | the push that ends another thread's call: the functor is queued whatever the state is by now |
| `TcpConnection.Connection.ForceCloseInLoop` | reactor_net/src/TcpConnection.cpp:184-189 | closes unless closed already |
| `TcpConnection.Connection.EchoOnMessage` | reactor_net/src/main.cpp:30-35 | all input is retrieved and appended to the output |
| `ServerProtocol.Lifecycle` | reactor_net/src/TcpServer.cpp:70-124 | in every run of any number of loops and connections: one UP callback once established, at most one DOWN, erased from the map at most once and always found, out of the poller only after that |
| `ServerProtocol.NothingUnregisteredMidDispatch` | reactor_net/src/EventLoop.cpp:80-95 | in every run each channel a loop has still to handle is its own, registered, and its connection is open |
| `ServerProtocol.TeardownOnItsWay` | reactor_net/src/TcpServer.cpp:110-124 | in every run a closed connection in the map has exactly one removal queued on the base loop, and an erased one exactly one destruction queued on its own loop until that has run |
| `TeardownProtocol.TeardownCompletes` | reactor_net/src/TcpServer.cpp:110-124 | from every reachable state in which a connection is closed, the steps of the base loop and of its own loop alone erase it, destroy it and unregister its channel, in at most twice the load of the one plus that of the other plus nine steps |
| `TeardownProtocol.Erasure` | reactor_net/src/TcpServer.cpp:115-124 | the erasing half, by the base loop, with its bound |
| `TeardownProtocol.Destruction` | reactor_net/src/TcpServer.cpp:121-123 | the destroying half, by the connection's own loop, with its bound |
| `TeardownProtocol.ComesTo` | reactor_net/src/EventLoop.cpp:74-92 | a loop comes to any functor in its queue by its own steps, in exactly as many steps as are ahead of it |
| `TeardownProtocol.NextIsNearer` | reactor_net/src/EventLoop.cpp:184-195 | each of its steps brings the functor one step nearer, whatever is queued behind |
| `ServerProtocol.StepsMoveForward` | reactor_net/src/TcpServer.cpp:70-124 | no step takes a connection back, and a channel leaves the poller only by the functor its own loop runs |
| `ServerProtocol.RunRemoveInv` | reactor_net/src/TcpServer.cpp:115-124 | a queued removal finds its connection in the map: the assertion holds |
| `ServerProtocol.StepInv` | reactor_net/src/TcpServer.cpp:70-124 | every step of every loop and user keeps the invariant |
| `ServerProtocol.RunInv` | reactor_net/src/TcpServer.cpp:70-124 | the same over whole runs |
| `ServerRefinement.ConnectionsAreRuns` | reactor_net/src/TcpServer.cpp:70-124 | in every run of a server each connection, with the functors its loop has still to run for it, is in a state that a run of this connection by itself leads to, so that every theorem about one connection holds of each |
| `ServerRefinement.StepRefines` | reactor_net/src/TcpServer.cpp:70-124 | every step of any loop or user is, for each connection, one step of that connection by itself or none |
| `ServerRefinement.SettleView` | reactor_net/src/TcpConnection.cpp:130-189 | an operation on a connection puts its functors behind the others of that connection, in order, and touches no other connection |
| `RoundRobin.FairShare` | reactor_net/src/TcpServer.cpp:74-80 | in every run any two worker loops have been given the same number of connections, give or take one; without worker loops the base loop has all |
| `RoundRobin.RunInTurn` | reactor_net/src/TcpServer.cpp:74-80 | each connection is in the worker loop behind that of the one before |
| `TcpServer.Server.NewConnection` | reactor_net/src/TcpServer.cpp:70-108 | round robin over the worker loops; established at once in the base loop, by a queued functor elsewhere; the name may be that of a connection already erased |
| `TcpServer.Server.RemoveConnection` | reactor_net/src/TcpServer.cpp:110-113 | removes at once in the base loop, queues the removal elsewhere |
| `TcpServer.Server.RemoveConnectionInLoop` | reactor_net/src/TcpServer.cpp:115-124 | erases whichever connection holds the name, says how many entries went, and always queues the destruction; the protocol's removal whenever the connection holds its own name |
| `TcpServer.Server.RunQueuedRemoval` | reactor_net/src/TcpServer.cpp:117-119 | in a reachable state the erasure finds exactly one entry |
| `TimerSpec.SplitUnique` | timer/README.md:59-66 | expiries and a moment determine what is due, in order, and what remains |
| `TimerSpec.InsertSorted` | timer/timer.cc:159-181 | inserting behind everything not greater keeps the order |
| `TimerSpec.InsertMultiset` | timer/timer.cc:159-181 | and adds exactly the one key |
| `TimerList.TimerListMgr.AddTimer` | timer/timer.cc:79-97 | the node goes behind all nodes that do not expire later; links, head and tail stay consistent and acyclic |
| `TimerList.TimerListMgr.AddAfterHead` | timer/timer.cc:159-181 | the walk from the head finds that place |
| `TimerList.TimerListMgr.DelTimer` | timer/timer.cc:99-123 | exactly this node leaves, wherever it is; a detached node changes nothing |
| `TimerList.TimerListMgr.AdjustTimer` | timer/timer.cc:183-228 | after any change of one expiry the list is ordered again; the node moves, behind its equals, exactly if it was out of order with a neighbour; a node in no list changes nothing |
| `TimerList.TimerListMgr.Tick` | timer/timer.cc:125-147 | exactly the due nodes leave, from the front and in order, and are detached |
| `MinHeap.PushHeap` | reactor_net/src/TimerQueue.cpp:162 | the last element rises: a heap of the same elements |
| `MinHeap.PopHeap` | reactor_net/src/TimerQueue.cpp:127 | the least element goes to the back, the others form a heap |
| `MinHeap.MakeHeap` | reactor_net/src/TimerQueue.cpp:97 | a heap of the same elements from any order |
| `MinHeap.SiftDown` | reactor_net/src/TimerQueue.cpp:127 | one element sinks to its place |
| `MinHeap.FrontIsLeast` | reactor_net/src/TimerQueue.cpp:123 | the front of a heap expires first |
| `TimerSchedule.Timer.Restart` | reactor_net/src/Timer.cpp:5-12 | a repeating timer expires one interval from now, any other becomes invalid |
| `TimerQueue.FireTime` | reactor_net/src/TimerQueue.cpp:18-28 | the kernel reports the timerfd at the expiry it was set for, but not within 100 microseconds of the moment it was set |
| `TimerQueue.Queue.FiresInTime` | reactor_net/src/TimerQueue.cpp:18-28 | no timer is stranded: while the timerfd covers the heap it fires for every timer in it, at the latest at its expiry or 100 microseconds after the arming |
| `TimerHeap.InsertSlot` | reactor_net/src/TimerQueue.cpp:161-162 | `push_back` and `push_heap`: a heap of one timer more, and which expiry is in front now |
| `TimerHeap.EraseSlot` | reactor_net/src/TimerQueue.cpp:94-98 | `find`, `erase` and `make_heap`: a heap without this timer, whose front is not earlier |
| `TimerHeap.TakeDue` | reactor_net/src/TimerQueue.cpp:120-133 | the loop takes slots in nondecreasing order of expiry until the front is not due |
| `TimerHeap.TakenIsDue` | reactor_net/src/TimerQueue.cpp:120-133 | what it takes is, by expiry, exactly what is due, in order, from distinct timers of the heap |
| `TimerHeap.TakenAreDueOnes` | reactor_net/src/TimerQueue.cpp:120-133 | and by timer, exactly the due ones, once each |
| `TimerQueue.Queue.Insert` | reactor_net/src/TimerQueue.cpp:153-170 | heap and active set gain the timer; the timerfd is set exactly if it comes first, at a moment read from the clock again, and keeps covering the heap |
| `TimerQueue.Queue.Cancel` | reactor_net/src/TimerQueue.cpp:86-102 | a timer in the heap leaves heap and set for good; any other, in particular one in the running batch, is left alone |
| `TimerQueue.Queue.GetExpired` | reactor_net/src/TimerQueue.cpp:120-133 | exactly the due timers leave heap and active set, in nondecreasing order of expiry |
| `TimerQueue.Queue.Reset` | reactor_net/src/TimerQueue.cpp:135-151 | heap, expiries and deleted timers are exactly as `AfterReset` says: repeating timers are back one interval from now, the others deleted, all else untouched; the batch is empty and the timerfd covers the heap |
| `TimerQueue.Queue.HandleRead` | reactor_net/src/TimerQueue.cpp:104-118 | exactly the due timers run, in order, the callback of each once; the operations of the read are those of the callbacks, section by section; each timer they add is in the heap with its time unless one of them cancels it, a timer not due stays unless one of them cancels it, and heap, expiries and deleted timers are exactly what `AfterRead` makes of it; the timerfd covers the heap |
| `TimerQueue.Queue.RunOps` | reactor_net/src/TimerQueue.cpp:111-114 | what one callback adds and cancels, also of the timers added during the same read, has exactly the effect of `AfterOps` on heap and deleted timers |
| `TimerQueue.Queue.RunCallbacks` | reactor_net/src/TimerQueue.cpp:110-115 | all callbacks of the batch run, once each and in order, with exactly the effect of their operations on heap and deleted timers |
| `TimerCallbacks.AllOpsAt` | reactor_net/src/TimerQueue.cpp:111-114 | the operations of a read fall into one section for each expired timer, in order, and each is exactly what the callback of that timer does |
| `TimerCallbacks.ReadAddsAll` | reactor_net/src/TimerQueue.cpp:104-118 | whatever callback adds a timer: it is as it was asked for, and in the heap with its time unless some callback cancels it |
| `TimerCallbacks.AddsOfCallback` | reactor_net/src/TimerQueue.cpp:111-114 | the additions of one callback stand behind those of the callbacks before it |
| `TimerCallbacks.AddsAre` | reactor_net/src/TimerQueue.cpp:111-114 | the additions among operations are those that add, each once and in order |
| `TimerSchedule.ReadKeeps` | reactor_net/src/TimerQueue.cpp:104-118 | over a whole read a timer that is not due stays with its expiry if no callback cancels it, and is deleted if one does |
| `TimerSchedule.ReadAdds` | reactor_net/src/TimerQueue.cpp:104-118 | a timer that a callback adds is in the heap afterwards with its expiry, unless it is cancelled during the same read |
| `TimerSchedule.ReadResets` | reactor_net/src/TimerQueue.cpp:104-118 | an expired timer is back one interval later, or deleted if it does not repeat, whatever the callbacks do |
| `TimerSchedule.ReadDeletes` | reactor_net/src/TimerQueue.cpp:104-118 | only cancelled timers and expired ones that do not repeat are deleted |
| `TimerSchedule.OpsAdd` | reactor_net/src/TimerQueue.cpp:111-114 | among any operations an added timer is in the heap with its expiry unless cancelled |
| `TimerSchedule.OpsCancel` | reactor_net/src/TimerQueue.cpp:86-102 | a timer cancelled while it is in the heap is gone for good, whatever operations follow |
| `TimerSchedule.OpsCancelNew` | reactor_net/src/TimerQueue.cpp:86-102 | a timer added and then cancelled during the same read is gone for good |
| `TimerSchedule.OpsIgnore` | reactor_net/src/TimerQueue.cpp:89-90 | cancelling a timer that is not in the heap, such as one of the running batch, does nothing |
| `TimerEquivalence.SameExpiries` | timer/README.md:59-66 | from the same expiries, `tick` of the list and `getExpired` of the queue yield the same sequence of expiries |
| `TimerEquivalence.ExpireBoth` | timer/README.md:59-66 | `tick` called on a list and `getExpired` on a queue in step with it: as many nodes as timers, with equal expiries one by one, and the two are in step again |
| `TimerEquivalence.StepExpire` | timer/README.md:59-66 | what remains after both is in step again |
| `TimerEquivalence.StepAdd` | timer/README.md:59-66 | adding to both keeps them in step |
| `TimerEquivalence.StepRemove` | timer/README.md:59-66 | deleting from the list and cancelling in the queue keeps them in step |
| `Buffer.FirstInFirstOut` | reactor_net/src/Buffer.cpp:13-41 | over any mix of appends and retrieves, what was taken followed by what is left is everything put, in order |
| `Buffer.Execute` | reactor_net/src/Buffer.cpp:13-41 | a real buffer delivers and leaves that |
| `Buffer.Buffer.Retrieve` | reactor_net/src/Buffer.cpp:13-19 | drops from the front; asking for too much empties |
| `Buffer.Buffer.RetrieveAsString` | reactor_net/src/Buffer.cpp:26-31 | what is returned followed by what is left is what was there |
| `Buffer.Buffer.Append` | reactor_net/src/Buffer.cpp:37-41 | adds behind, growing or compacting as needed |
| `Buffer.Buffer.MakeSpace` | reactor_net/src/Buffer.cpp:92-106 | contents kept and room made: the vector grows, or the bytes move towards the front by at least one |
| `Buffer.Buffer.MoveForward` | reactor_net/src/Buffer.cpp:98-104 | the forward copy onto overlapping cells keeps the contents |
| `Buffer.Buffer.EnsureWritableBytes` | reactor_net/src/Buffer.cpp:43-47 | contents kept, room for `len` |
| `Buffer.Buffer.ReadFd` | reactor_net/src/Buffer.cpp:52-75 | exactly the received bytes are appended, whether they fit or spill; an error changes nothing |
| `Buffer.Buffer.WriteFd` | reactor_net/src/Buffer.cpp:77-85 | exactly the written bytes leave; an error changes nothing |
| `Buffer.Buffer.FindCRLF` | reactor_net/src/Buffer.cpp:87-90 | the first line end, or none exactly if there is none |
| `HttpText.StopsAtFirstBlank` | reactor_net/src/HttpRequest.cpp:118-152 | from the start of a line, header parsing completes if and only if the independent search for an empty line succeeds, and stops just behind it |
| `HttpText.ScanExtends` | reactor_net/src/HttpRequest.cpp:118-152 | bytes behind a complete header section do not change what is read |
| `HttpText.FindBlankInPrefix` | reactor_net/src/main.cpp:84 | a prefix contains the empty line exactly if it covers it |
| `HttpText.ReadIsReadable` | reactor_net/src/HttpRequest.cpp:132-146 | whatever the text, parsed keys have no colon, and parsed keys and values no line end and no surrounding blanks |
| `HttpText.TrimOf` | reactor_net/src/HttpRequest.cpp:139-143 | trimming takes away exactly the blanks in front and behind |
| `HttpRequest.ParsedIff` | reactor_net/src/HttpRequest.cpp:42-60 | a text holds a complete request if and only if its first line is accepted and the framing search finds an empty line |
| `HttpRequest.ParsedEnd` | reactor_net/src/HttpRequest.cpp:118-152 | where header parsing stops is the first CRLFCRLF plus four |
| `HttpRequest.ParsedExtends` | reactor_net/src/HttpRequest.cpp:42-60 | appended bytes never change the parsed request |
| `HttpRequest.ParsedInPrefixIff` | reactor_net/src/HttpRequest.cpp:42-60 | a prefix of a complete request parses if and only if it reaches the end of the empty line |
| `HttpRequest.ParsedInPrefix` | reactor_net/src/HttpRequest.cpp:42-60 | and then it gives the same request |
| `HttpRequest.AcceptedPath` | reactor_net/src/HttpRequest.cpp:62-116 | an accepted request is a GET, and its decoded path contains no ".." and is not the bare root |
| `HttpRequest.DecodeUndoesEncode` | reactor_net/src/HttpRequest.cpp:9-40 | decoding undoes percent encoding for all byte strings, whatever is left plain besides "%" and "+" |
| `RequestLine.LineRoundTrip` | reactor_net/src/HttpRequest.cpp:62-116 | whatever path, query and version a client writes into a request line, the parser takes exactly this path, with the default document for the bare root, and this query; a path that climbs is refused |
| `RequestLine.GetRoundTrip` | reactor_net/src/HttpRequest.cpp:62-116 | with the numbers of HTTP/a.b |
| `RequestLine.RequestRoundTrip` | reactor_net/src/HttpRequest.cpp:42-152 | a whole request as a client writes it, with header lines and any text behind, is read as exactly these fields and headers |
| `RequestLine.AcceptedIff` | reactor_net/src/HttpRequest.cpp:62-116 | of the lines with three words exactly those are accepted that ask with GET for a path that does not climb when decoded; the exception comes exactly for version numbers that are none |
| `RequestLine.WordsAre` | reactor_net/src/HttpRequest.cpp:65-72 | the words of a line are what stands between its blanks, however many |
| `RequestLine.TooFewWords` | reactor_net/src/HttpRequest.cpp:68-72 | a line of fewer than three words is refused |
| `RequestLine.TargetIs` | reactor_net/src/HttpRequest.cpp:83-93 | a target splits at its first question mark, and only the path is decoded |
| `RequestLine.VersionIs` | reactor_net/src/HttpRequest.cpp:106-114 | the numbers stand on both sides of the first dot; one that is none lets the exception out |
| `RequestLine.PlusIsBlank` | reactor_net/src/HttpRequest.cpp:33-34 | a plus sign stands for a blank, and an escape that is none for itself |
| `RequestLine.HexValues` | reactor_net/src/HttpRequest.cpp:19-24 | digits of either case count |
| `HttpRequest.UrlDecode` | reactor_net/src/HttpRequest.cpp:9-40 | the loop computes the decoding of the text |
| `HttpRequest.HttpRequest.ParseHeaders` | reactor_net/src/HttpRequest.cpp:118-152 | the loop stores what the lines say, up to the empty line or the last complete line |
| `HttpRequest.HttpRequest.ParseRequestLine` | reactor_net/src/HttpRequest.cpp:62-116 | each field and the outcome, on every path through the function |
| `HttpRequest.HttpRequest.ParseRequest` | reactor_net/src/HttpRequest.cpp:42-60 | the whole effect on the request object, complete or not |
| `HttpServer.OnMessage` | reactor_net/src/main.cpp:72-127 | without a complete request nothing happens; where `std::stoi` throws nothing is consumed or sent and the exception is handed on; otherwise exactly the bytes through the empty line leave the buffer and the answer is sent before the shutdown |
| `HttpServer.Consume` | reactor_net/src/main.cpp:81-90 | both branches of the consumption |
| `HttpServer.BlankIsThere` | reactor_net/src/main.cpp:85-90 | behind a successful parse the retrieve-all branch is unreachable |
| `HttpServer.ChunksDoNotMatter` | reactor_net/src/main.cpp:72-90 | however a text arrives in chunks, the first reaction, an answer or an exception, is that of the whole text, and there is one exactly if there is one for the whole text |
| `HttpServer.Receive` | reactor_net/src/main.cpp:72-127 | chunks put into a real buffer, with `onMessage` called after each: outcome, answer and what is left in the buffer are those of the first reaction, and outcome and answer those to the whole text |
| `HttpServer.AnsweredWhenComplete` | reactor_net/src/main.cpp:72-90 | it is answered with the very chunk that completes its empty line |
| `HttpServer.AnswerReads` | reactor_net/src/main.cpp:92-123 | the answer read back gives its headers and a body of the announced length |
| `HttpServer.Respond` | reactor_net/src/main.cpp:92-123 | the text sent is the printed response for the file or the 404 page |
| `HttpService.GetIsServed` | reactor_net/src/main.cpp:72-123 | a GET as a client writes it, for any path that does not climb, is received as a request for that document and answered with the file if it opens and with 404 if not |
| `HttpService.AnswerIs` | reactor_net/src/main.cpp:99-118 | a file that opens is answered with 200 and its content as the body, any other path with 404 and the page that says so |
| `HttpService.AnswerOnTheWire` | reactor_net/src/main.cpp:99-123 | the client reads that code and its message in the status line, and behind the headers that body |
| `HttpService.StatusReadsBack` | reactor_net/src/HttpResponse.cpp:18-24 | the status line is printed whole exactly if it fits the line buffer, and then reads back as the version, the digits of the code, and the message |
| `HttpService.KnownMessages` | reactor_net/src/HttpResponse.cpp:3-13 | the messages of the four known codes |
| `HttpResponse.PrintThenRead` | reactor_net/src/HttpResponse.cpp:15-47 | printing then parsing is the identity: for printable custom headers and any body the parser recovers the defaults overridden by the custom map, and stops exactly at the body |
| `HttpLongLines.LineMustFit` | reactor_net/src/HttpResponse.cpp:34-38 | for one header of any key, even a default one, and any body, printing then parsing is the identity if and only if the line fits the 256-byte buffer |
| `HttpLongLines.LinesMustFit` | reactor_net/src/HttpResponse.cpp:34-47 | for any number of readable headers with different keys that override no default, and any body, printing then parsing is the identity if and only if every line fits |
| `HttpLongLines.LastMustFit` | reactor_net/src/HttpResponse.cpp:34-38 | the last header must fit in any case, whatever the others are and override |
| `HttpLongLines.LongHeaderFails` | reactor_net/src/HttpResponse.cpp:36 | a header that does not survive, with any body |
| `HttpLongLines.OverrideHidesCut` | reactor_net/src/HttpResponse.cpp:34-38 | with an overridden default a line may not fit and the round trip still be the identity |
| `HttpLongLines.CutIsNotRead` | reactor_net/src/HttpResponse.cpp:34-38 | a text printed with a line that does not fit never reads back as the headers meant with the body behind |
| `HttpLongLines.ScanCount` | reactor_net/src/HttpRequest.cpp:118-152 | a scan that completes has stored fewer new keys than the line ends it has passed |
| `HttpResponse.ExpectedLength` | reactor_net/src/HttpResponse.cpp:29-31 | unless overridden, the Content-Length read is the length of the body |
| `HttpResponse.DecimalIs` | reactor_net/src/HttpResponse.cpp:30 | the digits printed are those of the number |
| `HttpResponse.AddHeaderText` | reactor_net/src/HttpResponse.cpp:35-36 | the parser takes a header line apart where the printer put it together |
| `HttpResponse.StoredIs` | reactor_net/include/HttpResponse.h:29-31 | storing a header sets this key and no other |
| `HttpResponse.StoredAscending` | reactor_net/include/HttpResponse.h:29-31 | and keeps the entries in the order of the map |
| `HttpResponse.HttpResponse.AddHeader` | reactor_net/include/HttpResponse.h:29-31 | for one key the last value counts |
| `HttpResponse.HttpResponse.AppendToBuffer` | reactor_net/src/HttpResponse.cpp:15-47 | exactly the printed response is appended to the buffer |
| `PoolSpec.RunInv` | pool/pool.c:44-75 | over every run of allocations and frees of live blocks: live, free and untouched blocks partition the pool, and the counter is live less reuses modulo 2^64 |
| `PoolSpec.AllocGives` | pool/pool.c:44-65 | an allocation fails if and only if all blocks are live; otherwise it gives a block that was not |
| `PoolSpec.FreedComeBack` | pool/pool.c:44-75 | freed blocks come back last in, first out |
| `PoolSpec.UsedIsLiveIff` | pool/pool.c:44-75 | the counter is the number of live blocks if and only if the number of reuses is a multiple of 2^64 |
| `PoolSpec.UsedIsNotLive` | pool/pool.c:45-50 | allocate, free, allocate: one block live, the counter zero |
| `MemoryPool.LinksKept` | pool/pool.c:5-7 | writes into a block that is not free leave the free list alone |
| `MemoryPool.LinksPush` | pool/pool.c:69-72 | storing the old head in a block puts it in front of the list |
| `MemoryPool.BlocksTile` | pool/pool.c:17-41 | every byte of the arena is in exactly one block |
| `MemoryPool.BlocksDisjoint` | pool/pool.c:51-61 | blocks do not overlap |
| `MemoryPool.AlignedIff` | pool/pool.c:17-41 | all blocks are aligned for a pointer if and only if the block size is a multiple of eight or there is at most one block |
| `MemoryPool.PointerRoundTrip` | pool/pool.c:69-71 | a pointer stored in a block is read back |
| `MemoryPool.Pool.constructor` | pool/pool.c:17-41 | the pool is sound if and only if block size times count does not overflow |
| `MemoryPool.PoolInit` | pool/pool.c:17-41 | null exactly if one of the two calls of `malloc` fails |
| `MemoryPool.Pool.Alloc` | pool/pool.c:44-65 | the address of the block that the specification gives, null exactly if all blocks are live; the free list in memory stays right |
| `MemoryPool.Pool.Free` | pool/pool.c:67-75 | the block becomes the head of the list, no byte outside it changes, and null is ignored |
| `MemoryPool.Pool.ClientWrite` | pool/pool.c:5-7 | a client may write anything anywhere in a block it holds |

## Left out

- Weak memory orderings, cache-line alignment, and reuse of an index after 2^64 steps in the lock-free queue.
- Several consumers of `SPSCQueue`: its release loop assumes one. The one-item `enqueue` and `dequeue` of both queues are calls with a count of one.
- `SpscQueue.Queue.EnqueueBulk`: the uninterrupted call, for a queue without outstanding batches (behind one it would spin until that commits); interleaved calls are the protocol's runs.
- `ThreadPool`: futures, exception transport, the order of tasks of equal priority, `std::priority_queue` inside, joining the pool from one of its own tasks, and the destructor.
- `EventLoop`: thread start-up, the poll's time-out, `runInLoop` from inside a functor beyond what it queues.
- `EPollPoller`: `fillActiveChannels` and the growth of the event list; the events delivered are arbitrary.
- `TcpConnection`: errno, logging, addresses and sockets; the lifetime of the object behind the raw pointer in a queued `sendInLoop`.
- `TcpConnection.Connection.ConnectDestroyed`: the channel's removal from the poller is not a field of this object; `ServerProtocol` has it with every connection (`registered`).
- `TcpServer`: `~TcpServer`, `start`, `Acceptor` and the names built from addresses.
- `TimerListMgr`: the lock, null arguments, the callbacks and back pointers that `tick` and `del_timer` handle after detaching, and the destructor.
- `TimerQueue`: `sequence_`, the relative overload of `addTimer`, adding and cancelling from another thread (they run in the loop), real clocks and fractions of a microsecond. A heap slot carries the expiry its timer had when it was inserted, which does not change while the timer is in the heap.
- `TimerQueue.Queue.HandleRead`: a callback is a function from its timer to what it adds and cancels, timers added during the same read included; it cannot look at the queue or at how many timers other callbacks have added.
- `TimerEquivalence.SameExpiries`: about expiries, not about the order of timers with equal expiry, in which the two managers differ.
- `MinHeap`: the loops are the textbook ones; which of equal elements comes first is not specified by the standard library either.
- `HttpRequest`: `getHeader`, the messages on `cerr`; characters are bytes and the locale is "C".
- `HttpResponse`: the status codes of the enumeration are numbers, and the code printed with `%d` is not negative.
- `HttpServer`: `getMimeType`, which is a pure look-up.
- `pool.c`: output, and the demonstration in `main`; freeing a block that is not live.
- `Socket`, `InetAddress`, `Acceptor`, `EventLoopThread`, the logger and `struct/struct.c`: wrappers, start-up, file output and a fixed layout.
