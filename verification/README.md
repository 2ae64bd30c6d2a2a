# A verified model of leanet

leanet is a reactor network library in the manner of Muduo. These modules model the parts of it
that keep linked data structures, follow protocols between threads, or do exact arithmetic, and
prove what those parts are for.

Most parts come twice. A `...Spec` module holds the state as a value and one total `Step` function
over events; `Run` folds it over any sequence of events, and an event that is not enabled changes
nothing, so a statement about every sequence is a statement about every run and every interleaving.
Beside it stands a class with the fields that the source updates in place and the source's own
loops; each of its methods is proved equal to a step, or to a run of steps, of the specification.
What is proved about runs therefore holds of the code. The laws come in two kinds: what every
step and every run keeps (`...Spec`, `TimerQueueSafety`, `TimerQueueHistory`, `TimerQueuePeriods`), and what
each step gets done (`...Progress`), since a machine that does nothing would satisfy the first kind.

| part | modules |
|---|---|
| Timers with re-entrant callbacks | `OrderedTimers`, `TimerQueueSpec`, `TimerQueueSafety`, `TimerQueueHistory`, `TimerQueuePeriods`, `TimerQueueProgress`, `TimerQueue` |
| Hand-off of functors between threads | `EventLoopSpec`, `EventLoopProgress`, `EventLoop` |
| Output stream and half-close | `TcpConnectionSpec`, `TcpConnectionProgress`, `TcpConnection` |
| Calendar, UTC and zones | `Calendar`, `UtcTime`, `TimeZone` |
| Pollers | `PollerSpec`, `Channels`, `Poller`, `EPollPoller` |
| Byte buffers | `Bytes`, `LinearBuffer`, `RingBuffer`, `BufferRefinement` |
| Monitors | `MonitorSpec`, `MonitorProgress`, `Monitor` |
| Active connections | `ConnectorSpec`, `ConnectorProgress`, `Connector` |
| Numbers as text | `LogStream` |
| Shared by these | `Truncation`, `Scripts` |

`dafny verify dfyconfig.toml` verifies all of it.

## Findings

Where the code does not do what its names and comments suggest, the model follows the code.

- `sendInLoop` looks for EPIPE inside the branch for EWOULDBLOCK, so `faultError` is never set and
  data is kept in the output buffer after the peer has gone (`src/leanet/tcpconnection.cc:174-179`;
  `TcpConnectionSpec.FaultErrorIsNeverSet`).
- `sendInLoop` does not look at `state_`: a send that another thread queued and that runs after
  `handleClose` turns write interest on again (`src/leanet/tcpconnection.cc:156-199`;
  `TcpConnectionSpec.QueuedSendWritesAfterClose` says exactly when).
- A `shutdownInLoop` that another thread queued and that runs after `handleClose` issues SHUT_WR
  whatever is still buffered (`src/leanet/tcpconnection.cc:120-129`, `:208-215`;
  `TcpConnectionSpec.ShutdownAfterClose` says exactly when, `ShutdownCanCutOff` gives a run).
- SHUT_WR can be issued twice before the close: by the `handleWrite` that drains the buffer, and again by
  the `shutdownInLoop` that a `shutdown()` in another thread had queued
  (`src/leanet/tcpconnection.cc:110-112`, `:201-215`; `TcpConnectionSpec.SecondShutdown` says exactly
  when, `ShutdownCanComeTwice` gives a run).
- A queued send that runs after SHUT_WR leaves its data in the buffer and write interest on until the
  close, with writes that all fail (`src/leanet/tcpconnection.cc:156-199`;
  `TcpConnectionSpec.LateSendStays`).
- A functor that the loop thread queues before it calls `loop()` is not announced by the eventfd, and
  the thread can go to sleep on it (`src/leanet/eventloop.cc:123-125`;
  `EventLoopSpec.EarlyFunctorCanSleep` says exactly when).
- `loop()` clears `quit_` when it begins, so a `quit()` that is over before is forgotten
  (`src/leanet/eventloop.cc:85-88`; `EventLoopSpec.QuitIsTheLastWord` says when the flag is set,
  `QuitBeforeLoopIsForgotten` gives a run).
- A `resetChannel` that is still queued when the retry timer makes a new channel destroys that
  channel, and its socket is lost (`src/leanet/connector.cc:106-134`;
  `ConnectorSpec.LateResetLosesASocket`, `ConnectorSpec.AssertFailsExactlyWhenTooSoon`).
- A `start()` while an attempt is queued, planned, under way or successful, or while a `resetChannel` is
  still queued, can make the assert of `startInLoop` or `connecting` fail, and no other can
  (`src/leanet/connector.cc:42`, `:108`; `ConnectorSpec.SecondStart`).
- A task of a thread pool that calls `run()` on a full queue after `stop()` can leave its worker asleep
  for ever, and `stop()` with it (`src/leanet/threadpool.cc:41-50`, `:63-65`; a run of a pool of any
  maximum in `MonitorSpec.StopCanWaitForever`, and when in `ExitsExactlyWhenNeverHeld`).
- The ring buffer's `retrieveAsString(len)` returns every readable byte and consumes only `len` of
  them (`src/leanet/circularbuffer.h:132-145`; `RingBuffer.Buffer.RetrieveAsString`).
- `tm_yday` is one too small in the year -4800, and the weekday of a day number below -1 is negative
  unless the day is a Sunday, because division truncates (`src/leanet/timezone.cc:301-304`,
  `src/leanet/date.h:65-67`; `UtcTime.YearDayIsCount`, `Calendar.WeekDayIsLegal`).
- `fromLocalTime` is the inverse of `toLocalTime` exactly in the zones whose local time moves back only
  when daylight saving ends, and then by an hour (`src/leanet/timezone.cc:238-278`;
  `TimeZone.RoundTripExactly`, with an example in `StandardTimeMovingBack`).
- `callingExpiredTimers_` is not initialised, and this is harmless (`src/leanet/timerqueue.cc:66-74`;
  `TimerQueueHistory.GarbageStaysHarmless`).

## Assumptions

- Timers: one clock that does not go back, positive for the statement about the timerfd; live
  addresses are below `UINTPTR_MAX` and the allocator does not hand out a live one; intervals are
  whole microseconds.
- Event loop and monitors: a critical section, a write of a flag and a system call are each one step.
- Pollers: descriptors are not negative; `poll`'s count is the number of entries with an event;
  asserts are off, as in the Release build (`CMakeLists.txt:30`), since `poller.cc:54` rejects the
  update of an enabled channel. A channel that was removed is not given to `Poller` again, whose
  `removeChannel` leaves its `index_` as it was (`src/leanet/poller.cc:66-94`).
- Zones: `gmtime_r` and `mktime` are parameters, and `mktime` undoes `gmtime_r` at the seconds in
  question; `TimeZone.OwnIsInverse` shows that the library's own conversions would do in their range. The
  statement about all times of a zone takes two transitions to be at least an hour apart.
- Connector: where sockets are counted, `start()` is called when the connector is quiet, as it is before
  the first one; `stop()` any number of times. `handleWrite` runs outside kConnecting only for a channel
  that is registered, or in kDisconnected.
- Connection: a socket takes nothing after SHUT_WR.

## Model

| member | source | states |
|---|---|---|
| OrderedTimers.LowerBound | src/leanet/timerqueue.cc:85-93 | The position of a key in an ordered set: everything before it is smaller, nothing after it is |
| OrderedTimers.Add | src/leanet/timerqueue.cc:198-202 | Insertion keeps the order, adds exactly the one entry, and says what the first entry is afterwards |
| OrderedTimers.Erase | src/leanet/timerqueue.cc:130-132 | Erasing by key keeps the order and removes exactly that entry; the first entry does not get earlier |
| TimerQueueSafety.StartKeeps | src/leanet/timerqueue.cc:66-74 | A new queue satisfies the invariant, whatever the uninitialised flag holds |
| TimerQueueSafety.InsertTimerKeeps | src/leanet/timerqueue.cc:189-210 | Inserting a live timer that is in neither set restores the whole invariant |
| TimerQueueSafety.AddTimerKeeps | src/leanet/timerqueue.cc:117-123 | addTimerInLoop keeps the two sets equal, each timer with one owner and no dead timer used, also from inside a callback |
| TimerQueueSafety.DeleteActive | src/leanet/timerqueue.cc:127-134 | Deleting a pending timer removes it from both sets and leaves every other timer with its owner |
| TimerQueueSafety.CancelKeeps | src/leanet/timerqueue.cc:125-141 | Cancelling any id, stale or reused, keeps the invariant: no dead timer is read or deleted again |
| TimerQueueSafety.TakeDue | src/leanet/timerqueue.cc:85-105 | getExpired splits the pending timers in two: the due ones and the rest, sharing nothing and losing nothing |
| TimerQueueSafety.BeginReadKeeps | src/leanet/timerqueue.cc:144-152 | After getExpired the two sets agree again and the batch owns what left them |
| TimerQueueSafety.FireKeeps | src/leanet/timerqueue.cc:153-157 | The timer whose callback is called next is alive, whatever the earlier callbacks did |
| TimerQueueSafety.BatchHead | src/leanet/timerqueue.cc:163-167 | The timer that reset looks at is alive, pending nowhere, and not met again in the batch |
| TimerQueueSafety.DeleteKeeps | src/leanet/timerqueue.cc:173-175 | Deleting a finished timer in reset keeps the invariant |
| TimerQueueSafety.ReinsertKeeps | src/leanet/timerqueue.cc:168-172 | Restarting and re-inserting a repeating timer keeps the invariant |
| TimerQueueSafety.FinishKeeps | src/leanet/timerqueue.cc:178-187 | The first pending timer is alive when reset reads its expiration |
| TimerQueueSafety.StepKeeps | src/leanet/timerqueue.cc:85-210 | Every step keeps: both sets hold the same timers, every live timer has exactly one owner, no use or deletion of a dead timer, no failed assert |
| TimerQueueSafety.RunKeeps | src/leanet/timerqueue.cc:85-210 | The same over every run, with callbacks that add and cancel, addresses that are reused, and sequence numbers that are not |
| TimerQueueHistory.BatchIsExactlyTheDue | src/leanet/timerqueue.cc:85-105 | A batch holds exactly the pending timers with expiration <= now, in strictly increasing order; what stays is later than now |
| TimerQueueHistory.FireKeepsHistory | src/leanet/timerqueue.cc:153-157 | A callback is logged no earlier than its expiration, and a one-shot timer not a second time |
| TimerQueueHistory.RunKeepsHistory | src/leanet/timerqueue.cc:85-187 | Over every run: never early, one-shot timers at most once, the log names the timers it says, callbacks in batch order |
| TimerQueueHistory.CancelMakesGone | src/leanet/timerqueue.cc:125-141 | Cancelling an inserted timer deletes it or marks it while it is in the batch |
| TimerQueueHistory.GoneForever | src/leanet/timerqueue.cc:163-176 | A timer that is deleted or marked stays so in every later state, and uses up at most the one callback it was due |
| TimerQueueHistory.CancelIsFinal | src/leanet/timerqueue.cc:125-176 | A cancelled timer is never pending again and runs again only if its callback was still to come in the current batch, then once |
| TimerQueueHistory.FinishKeepsTimerfdOk | src/leanet/timerqueue.cc:178-187 | After reset the earliest timer is covered, although reset skips a non-positive expiration |
| TimerQueueHistory.ResetOneKeepsTimerfdOk | src/leanet/timerqueue.cc:164-176 | A re-inserted timer has a positive expiration, so it does not spoil what reset skips |
| TimerQueueHistory.NoTimerIsLost | src/leanet/timerqueue.cc:117-210 | In every run: outside handleRead, if a timer is pending the timerfd is armed no later than the earliest expiration or 100 microseconds after it was set |
| TimerQueueHistory.GarbageStaysHarmless | src/leanet/timerqueue.cc:66-74 | Queues that start with different flag values differ in the flag and the cancelled set at most, and in nothing after the first handleRead |
| TimerQueueHistory.EveryRun | src/leanet/timerqueue.cc:66-210 | All of this for every run of a new queue |
| TimerQueuePeriods.FrameKeepsPeriods | src/leanet/timerqueue.cc:107-141 | A step that makes no call and restarts no timer keeps when every called timer is due next |
| TimerQueuePeriods.FireKeepsPeriods | src/leanet/timerqueue.cc:153-157 | A call is due an interval after the call of the same timer before it |
| TimerQueuePeriods.ResetOneKeepsPeriods | src/leanet/timerqueue.cc:167-175 | A restarted timer is due an interval after its last call was made |
| TimerQueuePeriods.CallsAreSpaced | src/leanet/timer.cc:7-13 | In every run of a new queue, of two consecutive calls of one timer the later was due exactly an interval after the earlier was made, and was not made before that |
| TimerQueueProgress.NewTimerIsAsAsked | src/leanet/timerqueue.cc:107-111 | A new timer has the expiration, repetition and interval it was asked for, a number no other has, and is not filed yet |
| TimerQueueProgress.InsertFiles | src/leanet/timerqueue.cc:117-123 | addTimerInLoop makes the timer pending under its own expiration, and moves no other |
| TimerQueueProgress.CancelLeavesOthers | src/leanet/timerqueue.cc:125-141 | Cancelling one id leaves every other timer pending or in the batch as it was, and unmarked, and the timerfd as it is set |
| TimerQueueProgress.ArmedForExpiration | src/leanet/timerqueue.cc:30-52 | The timerfd goes off no earlier than the expiration it is set for, and later only by the floor of 100 microseconds |
| TimerQueueProgress.ReadEndsReadiness | src/leanet/timerqueue.cc:55-62 | After the read the timerfd is not readable |
| TimerQueueProgress.PhasesAdvance | src/leanet/timerqueue.cc:144-187 | handleRead calls its batch one by one, clears the flag, looks at the batch one by one in reset, and ends |
| TimerQueueProgress.RestartFiles | src/leanet/timerqueue.cc:167-172 | A repeating timer of the batch that was not cancelled is pending again, exactly an interval after now, and nothing else is filed |
| TimerQueueProgress.StepKeepsTimer | src/leanet/timerqueue.cc:85-210 | A timer that is filed or in the batch stays so over every step, unless it is cancelled, or is one-shot and was called |
| TimerQueueProgress.NoTimerIsForgotten | src/leanet/timerqueue.cc:85-210 | Over every run without its cancellation an inserted timer is pending or in the batch, or it is one-shot and was called |
| TimerQueueProgress.RepeatingTimersStay | src/leanet/timerqueue.cc:66-210 | In every run of a new queue: outside handleRead an inserted repeating timer is pending, until it is cancelled |
| TimerQueue.TimerQueue.constructor | src/leanet/timerqueue.cc:66-74 | Establishes the invariant with an arbitrary flag |
| TimerQueue.TimerQueue.AddTimer | src/leanet/timerqueue.cc:107-111 | A new timer with the next sequence number, waiting for addTimerInLoop |
| TimerQueue.TimerQueue.ResetTimerfd | src/leanet/timerqueue.cc:30-52 | Arms the timerfd for the expiration, at least 100 microseconds ahead, and changes nothing else |
| TimerQueue.TimerQueue.Insert | src/leanet/timerqueue.cc:189-210 | Puts the timer in both sets and says whether it is now the earliest |
| TimerQueue.TimerQueue.AddTimerInLoop | src/leanet/timerqueue.cc:117-123 | One step of the state machine: inserted, and the timerfd set if the earliest changed |
| TimerQueue.TimerQueue.CancelTimerInLoop | src/leanet/timerqueue.cc:125-141 | One step of the state machine: deleted, marked, or ignored |
| TimerQueue.TimerQueue.GetExpired | src/leanet/timerqueue.cc:85-105 | The loop over the batch removes exactly the batch's pairs from activeTimers_ |
| TimerQueue.TimerQueue.RestartOrDelete | src/leanet/timerqueue.cc:167-175 | One turn of reset's loop is one step of the state machine, the one that `TimerQueueProgress.RestartFiles` and `TimerQueueSafety.DeleteKeeps` are about |
| TimerQueue.TimerQueue.ArmForNext | src/leanet/timerqueue.cc:178-187 | The end of reset is one step of the state machine |
| TimerQueue.TimerQueue.Reset | src/leanet/timerqueue.cc:163-187 | reset's loop is a run of the state machine and makes no callback |
| TimerQueue.TimerQueue.CallExpired | src/leanet/timerqueue.cc:151-158 | The callback loop, each callback doing an arbitrary script, is a run of the state machine that calls exactly the batch in order |
| TimerQueue.TimerQueue.HandleRead | src/leanet/timerqueue.cc:144-161 | handleRead with arbitrary re-entrant callbacks is a run of the state machine, calls exactly the due timers in order, keeps the invariant, and leaves every repeating timer that no callback cancels pending |
| TimerQueue.RepeatingStay | src/leanet/timerqueue.cc:144-187 | After handleRead a repeating timer is pending again, due or not, unless a callback cancelled it |
| EventLoopSpec.StepKeepsWakeup | src/leanet/eventloop.cc:81-152 | Every step keeps: pending work means a kick that is there or to come, except in the stretch that swaps the queue anyway |
| EventLoopSpec.StepKeepsQueue | src/leanet/eventloop.cc:117-152 | Every step keeps: executed, rest of the batch and queue together are the pushes |
| EventLoopSpec.RunKeeps | src/leanet/eventloop.cc:81-152 | Both over every interleaving |
| EventLoopSpec.NoLostWakeup | src/leanet/eventloop.cc:81-152 | In every interleaving: a loop thread in poll with a set quit_ or a pending functor finds the eventfd positive or another thread about to make it so, unless the functor was queued by the loop thread outside loop() |
| EventLoopSpec.EarlyFunctorCanSleep | src/leanet/eventloop.cc:117-126 | The exception: a functor queued by the loop thread before loop() is slept on exactly if nothing else was about to wake the thread |
| EventLoopSpec.EarlyNeedsOwnPush | src/leanet/eventloop.cc:123-125 | The exception arises only from a push by the loop thread outside loop() |
| EventLoopSpec.QuitIsTheLastWord | src/leanet/eventloop.cc:81-115 | Over every interleaving quit_ is set if and only if some quit() took effect and no loop() began after it |
| EventLoopSpec.QuitBeforeLoopIsForgotten | src/leanet/eventloop.cc:85-94 | A quit() by another thread that is over before loop() begins: the loop polls with quit_ clear |
| EventLoopSpec.RunInPushOrder | src/leanet/eventloop.cc:117-152 | Executed functors, then the rest of the batch, then the queue, are the pushes in order: each runs once, none is lost |
| EventLoopSpec.BatchIsBounded | src/leanet/eventloop.cc:136-152 | One doPendingFunctors runs its swapped-out batch and nothing else, however much is queued meanwhile |
| EventLoopProgress.RunInOrderBrought | src/leanet/eventloop.cc:117-152 | Over every interleaving, executed functors, then the rest of the batch, then the queue, are exactly the functors that the pushes brought, in order |
| EventLoopProgress.PushedIsWhatWasBrought | src/leanet/eventloop.cc:117-121 | Over every interleaving, every push that takes effect adds its functor once, and nothing else adds one |
| EventLoopProgress.UserCodeQueuesAndQuits | src/leanet/eventloop.cc:108-126 | User code in the loop thread can queue and quit outside loop(), in handlers and in functors |
| EventLoopProgress.MidwayExactly | src/leanet/eventloop.cc:108-126 | Over every interleaving, a thread counts as about to wake the loop if and only if it has pushed or quit and not yet called wakeup() |
| EventLoopProgress.EarlyExactly | src/leanet/eventloop.cc:123-145 | Over every interleaving, the exception to NoLostWakeup holds if and only if the loop thread pushed outside loop() and the queue was not swapped out since |
| EventLoopProgress.EventfdCountsWakeups | src/leanet/eventloop.cc:179-193 | Over every interleaving, the eventfd is the number of wakeups since it was last drained, up to its maximum |
| EventLoopProgress.DrainedStaysDrained | src/leanet/eventloop.cc:179-193 | Once drained, the eventfd stays at zero until the next wakeup, so no poll returns for it |
| EventLoopProgress.PollDrains | src/leanet/eventloop.cc:93-100 | A round that finds the eventfd positive leaves it at zero |
| EventLoopProgress.RoundRunsAll | src/leanet/eventloop.cc:88-102 | A round runs every functor that waits, in order, leaves queue and eventfd empty, and comes back to the test |
| EventLoopProgress.LoopRunsUntilQuit | src/leanet/eventloop.cc:85-106 | loop() makes another round if and only if quit_ is clear at its test |
| EventLoop.EventLoop.WakeUp | src/leanet/eventloop.cc:179-185 | Adds one to the eventfd, which stays put when it is full |
| EventLoop.EventLoop.OtherThread | src/leanet/eventloop.cc:108-126 | A push or quit by another thread is two steps, and others may run between them |
| EventLoop.EventLoop.QueueInLoop | src/leanet/eventloop.cc:117-126 | queueInLoop in the loop thread is a run of the machine whatever the others do between the push and the wakeup |
| EventLoop.EventLoop.DoPendingFunctors | src/leanet/eventloop.cc:136-152 | Calls exactly the functors that were queued when it took the lock, in order, each once, and returns with the flag cleared |
| EventLoop.EventLoop.HandleRead | src/leanet/eventloop.cc:187-193 | Reads the eventfd down to zero if it was reported, and changes nothing else |
| EventLoop.EventLoop.HandleEvents | src/leanet/eventloop.cc:93-100 | Dispatching what poll returned is exactly the events of the handlers, the wakeup channel's among them if poll reported the eventfd |
| EventLoop.EventLoop.PollOnce | src/leanet/eventloop.cc:93-101 | One pass of the loop's body is exactly: poll, the handlers, the functors queued by then, and back to the test |
| EventLoop.EventLoop.Loop | src/leanet/eventloop.cc:81-106 | The main loop makes exactly the rounds it is given, one after another, keeps its invariants, and ends early exactly when a test sees quit_ |
| TcpConnectionSpec.FaultErrorIsNeverSet | src/leanet/tcpconnection.cc:174-179 | The test for a broken connection cannot succeed |
| TcpConnectionSpec.SendingKeeps | src/leanet/tcpconnection.cc:156-199 | sendInLoop keeps the stream and the link between data and write interest, for a short, full or failed write |
| TcpConnectionSpec.WritingKeeps | src/leanet/tcpconnection.cc:92-118 | handleWrite keeps them too, and the half-close that is owed |
| TcpConnectionSpec.StepKeeps | src/leanet/tcpconnection.cc:58-215 | Every event keeps the invariant |
| TcpConnectionSpec.OutputConserved | src/leanet/tcpconnection.cc:92-199 | Over every run: bytes taken by the socket followed by buffered bytes are all bytes given; before the close, write interest is on iff the buffer is non-empty |
| TcpConnectionSpec.QueuedSendWritesAfterClose | src/leanet/tcpconnection.cc:141-199 | After the close, a queued send turns write interest on exactly when it leaves or adds data in the buffer |
| TcpConnectionSpec.ShutdownAfterLastByte | src/leanet/tcpconnection.cc:201-215 | Before the close, SHUT_WR is issued once per step at most, and only when the socket has taken every byte |
| TcpConnectionSpec.ShutdownAfterClose | src/leanet/tcpconnection.cc:208-215 | After the close, a step issues SHUT_WR if and only if it is a queued shutdownInLoop and write interest is off, whatever is buffered |
| TcpConnectionSpec.ShutdownCanCutOff | src/leanet/tcpconnection.cc:120-215 | A run in which a queued shutdownInLoop issues SHUT_WR with data still buffered |
| TcpConnectionSpec.ShutdownIsOwed | src/leanet/tcpconnection.cc:201-215 | Over every run: once asked for, SHUT_WR has been issued or data is pending with write interest on |
| TcpConnectionSpec.DrainingPaysTheShutdown | src/leanet/tcpconnection.cc:98-112 | While disconnecting, a handleWrite drains the buffer if and only if no SHUT_WR was issued and the socket takes everything, and then it issues SHUT_WR |
| TcpConnectionSpec.SecondShutdown | src/leanet/tcpconnection.cc:201-215 | Before the close SHUT_WR is issued again if and only if a queued shutdownInLoop runs with write interest off, and never a third time |
| TcpConnectionSpec.ShutdownCanComeTwice | src/leanet/tcpconnection.cc:98-112 | A run in which it is issued by the draining handleWrite and again by the queued shutdownInLoop |
| TcpConnectionSpec.ShutdownsAtMost | src/leanet/tcpconnection.cc:201-215 | Over every run, before the close: at most twice, and at most once if shutdown is called in the loop thread only |
| TcpConnectionSpec.LateSendStays | src/leanet/tcpconnection.cc:156-199 | Whatever follows, data sent after SHUT_WR is never taken and keeps write interest on until the close |
| TcpConnectionSpec.NoticesOfStep | src/leanet/tcpconnection.cc:183-199 | A step notifies the high-water mark exactly when it crosses it, with the new size, and write completion only when all is taken |
| TcpConnectionSpec.OneNoticePerCrossing | src/leanet/tcpconnection.cc:183-192 | Over every run: as many high-water notifications as upward crossings |
| TcpConnectionProgress.OutputIsWhatWasSent | src/leanet/tcpconnection.cc:92-199 | Over every run: bytes taken by the socket followed by buffered bytes are the data of the sends that took effect, in order |
| TcpConnectionProgress.GivenIsWhatWasSent | src/leanet/tcpconnection.cc:141-199 | Over every run: the bytes given are the data of every queued send, and of every send on an established connection |
| TcpConnectionProgress.SendWritesAtOnce | src/leanet/tcpconnection.cc:163-199 | A send with nothing pending gives the socket all it takes at once and buffers exactly the rest behind write interest; if there is no rest, one completion |
| TcpConnectionProgress.FailedSendBuffers | src/leanet/tcpconnection.cc:172-198 | A direct write that fails buffers all of the data behind write interest, and no completion is told |
| TcpConnectionProgress.PendingSendBuffers | src/leanet/tcpconnection.cc:183-198 | A send behind pending data joins it, and nothing is written |
| TcpConnectionProgress.SendIsSendInLoop | src/leanet/tcpconnection.cc:141-150 | send does what sendInLoop does on an established connection, and nothing otherwise |
| TcpConnectionProgress.HandleWriteWrites | src/leanet/tcpconnection.cc:92-118 | In every connection state, handleWrite with write interest on gives the socket exactly what it takes; drained, interest goes off, one completion if there is a callback, and SHUT_WR if disconnecting |
| TcpConnectionProgress.HandleWriteWaits | src/leanet/tcpconnection.cc:112-117 | Without write interest, or when the write fails, handleWrite changes nothing |
| TcpConnectionProgress.CompletionExactly | src/leanet/tcpconnection.cc:92-199 | An event queues a completion if and only if there is a callback and with it the socket has taken everything |
| TcpConnectionProgress.WritesDrain | src/leanet/tcpconnection.cc:92-118 | As many handleWrites as there are bytes drain the buffer into the socket, in order, if each time the socket takes at least a byte |
| TcpConnectionProgress.ShutdownBegins | src/leanet/tcpconnection.cc:201-206 | shutdown takes effect on an established connection only: SHUT_WR at once if nothing is being written, or a functor from another thread |
| TcpConnectionProgress.QueuedShutdownRuns | src/leanet/tcpconnection.cc:208-215 | The queued functor issues SHUT_WR if and only if nothing is being written |
| TcpConnectionProgress.ShutdownIsMade | src/leanet/tcpconnection.cc:98-112 | A shutdown that was asked for is issued after as many successful handleWrites as bytes are buffered |
| TcpConnectionProgress.NewConnection | src/leanet/tcpconnection.cc:31-52 | A new connection is connecting, with the mark and callback it was given and nothing buffered |
| TcpConnectionProgress.EstablishedThenClosed | src/leanet/tcpconnection.cc:58-74 | A connection is established from connecting only, and its close turns all interest off and leaves the buffer |
| TcpConnection.TcpConnection.ConnectEstablished | src/leanet/tcpconnection.cc:58-65 | Connecting becomes connected, and nothing else changes |
| TcpConnection.TcpConnection.Send | src/leanet/tcpconnection.cc:141-150 | send in the loop thread is one step, and does nothing unless connected |
| TcpConnection.TcpConnection.WriteDirectly | src/leanet/tcpconnection.cc:164-181 | The direct write: what the socket took, and the notification if that was all |
| TcpConnection.TcpConnection.AppendToOutput | src/leanet/tcpconnection.cc:185-198 | What is left joins the output buffer behind what was there |
| TcpConnection.TcpConnection.SendInLoop | src/leanet/tcpconnection.cc:156-199 | sendInLoop on the real buffer is the step of the machine |
| TcpConnection.TcpConnection.HandleWrite | src/leanet/tcpconnection.cc:92-118 | handleWrite on the real buffer is the step of the machine, the one that `TcpConnectionProgress.HandleWriteWrites` is about |
| TcpConnection.TcpConnection.Shutdown | src/leanet/tcpconnection.cc:201-206 | shutdown, in the loop thread or another, is one step |
| TcpConnection.TcpConnection.ShutdownInLoop | src/leanet/tcpconnection.cc:208-215 | SHUT_WR if and only if nothing is being written |
| TcpConnection.TcpConnection.RunQueuedShutdown | src/leanet/tcpconnection.cc:204-215 | A shutdownInLoop that another thread queued is one step |
| TcpConnection.TcpConnection.HandleClose | src/leanet/tcpconnection.cc:120-129 | Disconnected, no events, closed |
| Calendar.NextHasNextNumber | src/leanet/date.cc:14-19 | The next day by leap-year and month-length rules has the next day number |
| Calendar.CountedHasItsNumber | src/leanet/date.cc:14-19 | The n-th day counted from -4800-03-01 has number n - 32044 |
| Calendar.YearLength | src/leanet/date.cc:18 | The closed form's years are 365 days, or 366 exactly before a leap-year March |
| Calendar.YearMonthAndDay | src/leanet/date.cc:21-33 | The inverse formula finds the year, month and day into which the number splits |
| Calendar.ToYearMonthDayInverts | src/leanet/date.cc:21-33 | Every number from -32044 on gives a valid date with that number |
| Calendar.DayNumberInverts | src/leanet/date.cc:14-33 | Every valid date from -4800-03-01 on comes back from its number |
| Calendar.NumberOrderIsDateOrder | src/leanet/date.cc:14-19 | Smaller number if and only if earlier date |
| Calendar.ClosedFormCounts | src/test/date_unittest.cc:11-29 | The closed form equals the calendar that counts day by day, on every day |
| Calendar.WeekDayAdvances | src/leanet/date.h:65-67 | The weekday advances by one mod 7 per day, also before the epoch |
| Calendar.WeekDayOfEveryDay | src/leanet/date.h:65-67 | 1970-01-01 is a Thursday, and every other day has the weekday that its distance from it says: exactly from number -1 on, modulo 7 before |
| Calendar.WeekDayIsLegal | src/leanet/date.h:65-67 | The weekday is in 0..6 if and only if the number is at least -1 or the day is a Sunday |
| Calendar.FitsInt32 | src/leanet/date.cc:21-24 | The intermediate products fit an int if and only if the number is at most 536838867 |
| Calendar.DateFitsInt32 | src/leanet/date.cc:14-19 | For every date up to that number the partial sums of the forward conversion fit an int |
| UtcTime.DayAndSecondsAreFloor | src/leanet/timezone.cc:287-292 | Truncating division with its correction gives the floor and a non-negative remainder |
| UtcTime.EpochDay | src/leanet/date.cc:37 | 1970-01-01 has the constant's number |
| UtcTime.UtcRoundTrip | src/leanet/timezone.cc:280-319 | fromUtcTime(toUtcTime(t)) == t for every t in range, before 1970 too, and all fields are legal |
| UtcTime.FieldsRoundTrip | src/leanet/timezone.cc:280-319 | toUtcTime gives back every legal date and time of day that fromUtcTime was given |
| UtcTime.YearDayIsCount | src/leanet/timezone.cc:301-304 | tm_yday is the count of days since 1 January by the calendar, if and only if the year is after -4800 |
| UtcTime.WeekDayOfTime | src/leanet/timezone.cc:299 | The weekday field advances by one mod 7 per day, and when it is legal |
| UtcTime.WeekDaySinceEpoch | src/leanet/timezone.cc:299 | The weekday field is Thursday's on 1970-01-01 and counts the days from there, modulo 7 |
| UtcTime.UtcIsGreenwich | src/leanet/timezone.cc:280-306 | toUtcTime says no daylight saving and no offset |
| TimeZone.LastAtOrBefore | src/leanet/timezone.cc:197-220 | The linear scan that the search is compared with: the last transition at or before the key |
| TimeZone.LowerBound | src/leanet/timezone.cc:203-207 | Binary search: everything before the result is below the key, everything from it on is not |
| TimeZone.FindLocaltime | src/leanet/timezone.cc:197-220 | In any table in the order of its key, the branches around lower_bound find the type of the linear scan, and type 0 before the first transition (section 3.2 of RFC 8536) |
| TimeZone.TypeInForce | src/leanet/timezone.cc:197-220 | From each transition to the next its own type is in force, and type 0 before the first |
| TimeZone.ToLocalTime | src/leanet/timezone.cc:238-257 | The fields of the time moved by the offset in force |
| TimeZone.LocalShowsOffset | src/leanet/timezone.cc:238-257 | The fields say the offset and daylight flag in force, and name the time moved by that offset |
| TimeZone.FromLocalTime | src/leanet/timezone.cc:259-278 | The local search, the daylight test and the correction by an hour |
| TimeZone.SkippedTime | src/leanet/timezone.cc:259-278 | A local time that a transition skips is read with the offset before it, unless the fields say daylight saving and the time tried shows the same clock without it |
| TimeZone.LocalSearchOnce | src/leanet/timezone.cc:264-267 | Outside a repeated hour the search by local time finds the transition that the search by UTC found |
| TimeZone.LocalSearchFirstOfTwo | src/leanet/timezone.cc:264-267 | In the first pass of a repeated hour it finds the next one |
| TimeZone.SecondOfTwo | src/leanet/timezone.cc:269-276 | An hour later the next transition is in force and daylight saving has ended |
| TimeZone.LocalRoundTrip | src/leanet/timezone.cc:238-278 | fromLocalTime(toLocalTime(t)) == t for every t, repeated hours included, if local time moves back only when daylight saving ends |
| TimeZone.FirstShownComesBack | src/leanet/timezone.cc:259-278 | Where local time moves back, the first moment shown twice comes back if and only if daylight saving ends there, by an hour |
| TimeZone.RoundTripExactly | src/leanet/timezone.cc:238-278 | In a zone without two transitions within an hour, all of any times that include the first moments shown twice come back if and only if local time moves back at no transition but an end of daylight saving, by an hour |
| TimeZone.OwnRoundTripExactly | src/leanet/timezone.cc:238-319 | The same for all times in range, with the library's own UTC conversions in the place of gmtime_r and mktime |
| TimeZone.StandardTimeMovingBack | src/leanet/timezone.cc:259-278 | A zone whose standard time moves back, and a time that comes back an hour late |
| TimeZone.OwnIsInverse | src/leanet/timezone.cc:280-319 | The library's own UTC conversions satisfy the assumption about mktime |
| PollerSpec.UpdatePollRefines | src/leanet/poller.cc:32-64 | updateChannel keeps indices and slots in agreement and the interest map refined |
| PollerSpec.SlotAfterUpdate | src/leanet/poller.cc:32-64 | The slot after an update: a new one at the end, or the channel's own, which is negated if and only if a registered channel wants nothing; no other slot changes |
| PollerSpec.IndexAfterRemove | src/leanet/poller.cc:66-94 | After a removal every other channel has its index, and the one that was last has the freed one |
| PollerSpec.SlotsAfterRemove | src/leanet/poller.cc:83-93 | After a removal every slot is the one before, or the last in the freed place, and its channel's index names it |
| PollerSpec.RemovePollRefines | src/leanet/poller.cc:66-94 | removeChannel keeps the agreement, and the interest map loses exactly that descriptor |
| PollerSpec.PollWatches | src/leanet/poller.cc:32-94 | The array watches exactly the non-empty interests |
| PollerSpec.StepEpollRefines | src/leanet/epollpoller.cc:71-123 | Every call keeps: kAdded iff in the kernel set, kDeleted iff in the map only, kNew iff in neither, and the interest map refined |
| PollerSpec.EpollAfterUpdate | src/leanet/epollpoller.cc:71-123 | A registered channel without events leaves the kernel's set with tag kDeleted, every other update puts it there with its events and kAdded, a removal forgets it, and the kernel refuses none |
| PollerSpec.EpollWatches | src/leanet/epollpoller.cc:71-123 | The kernel set watches exactly the non-empty interests |
| PollerSpec.RunsRefine | src/leanet/poller.cc:32-94 | Both implementations refine one interest map over every sequence of calls |
| PollerSpec.PollersWatchTheSame | src/leanet/epollpoller.cc:71-123 | After any calls both watch the same pairs, indices and tags are right, and epoll_ctl refused nothing |
| Poller.Poller.WriteSlot | src/leanet/poller.cc:36-63 | A new slot, or the channel's own slot rewritten, with the descriptor negated when nothing is wanted |
| Poller.Poller.UpdateChannel | src/leanet/poller.cc:32-64 | On channel objects: the step of the specification, and the agreement is kept |
| Poller.Poller.MoveLastTo | src/leanet/poller.cc:86-92 | Swap and pop, and the index of the moved channel object rewritten and of no other |
| Poller.Poller.RemoveChannel | src/leanet/poller.cc:66-94 | On channel objects: the step of the specification, and the agreement is kept |
| Poller.Poller.DistinctSlots | src/leanet/poller.cc:32-94 | No two slots are for the same descriptor, so a channel receives what its own slot says |
| Poller.Poller.NothingReadyLeft | src/leanet/poller.cc:106-108 | When the countdown reaches zero the later slots list no channel and set no received events |
| Poller.Poller.Scan | src/leanet/poller.cc:105-124 | The loop with its early end lists the channels of all slots with events in slot order, and sets the received events of those only |
| Poller.Poller.FillActiveChannels | src/leanet/poller.cc:102-125 | With the true count: numEvents channels, each one with events at the rank of its slot with its received events set, no other channel changed, and the poller still valid |
| Poller.Poller.EveryReadyChannelIsListed | src/leanet/poller.cc:115-123 | Every slot with an event gives its channel, at the position of its rank |
| EPollPoller.EPollPoller.Ctl | src/leanet/epollpoller.cc:111-123 | epoll_ctl on the kernel's set, which refuses a wrong ADD, MOD or DEL |
| EPollPoller.EPollPoller.UpdateChannel | src/leanet/epollpoller.cc:71-94 | On channel objects: the step of the specification, and the tags stay right |
| EPollPoller.EPollPoller.RemoveChannel | src/leanet/epollpoller.cc:96-109 | On channel objects: the step of the specification, and the channel can be added again |
| LinearBuffer.Buffer.Prepend | src/leanet/buffer.h:61-66 | The contents get the data in front |
| LinearBuffer.Buffer.Retrieve | src/leanet/buffer.h:131-138 | The contents lose their first bytes; emptied, the indices return to the start |
| LinearBuffer.Buffer.RetrieveAsString | src/leanet/buffer.h:190-195 | The string is what the contents lose; emptied, the indices return to the start |
| LinearBuffer.Buffer.Unwrite | src/leanet/buffer.h:221-224 | The contents lose their last bytes, and keep their place |
| LinearBuffer.Buffer.Write | src/leanet/buffer.h:216-219 | Bytes put at the write index and counted by hasWritten join the contents |
| LinearBuffer.Buffer.Append | src/leanet/buffer.h:226-230 | The contents get the data behind; with room nothing moves, and it grows only if all free room together would not do |
| LinearBuffer.Buffer.EnsureWritableBytes | src/leanet/buffer.h:266-271 | Room for the data, same contents, nothing changed if there was room, and a larger vector only if all free room together would not do |
| LinearBuffer.Buffer.Extend | src/leanet/buffer.h:282-297 | Growth, to exactly the size needed, and overlapping compaction to the front keep the contents, and the assert in it holds |
| LinearBuffer.Buffer.ReadFd | src/leanet/buffer.cc:10-31 | The contents get exactly the delivered bytes for every split between tail and overflow area, and stay the same on an error |
| RingBuffer.Wrap | src/leanet/circularbuffer.h:164-170 | The remainder goes around at most once |
| RingBuffer.CopyAround | src/leanet/circularbuffer.h:89-101 | The one or two copies of append, as one value of the array |
| RingBuffer.PlacedAppends | src/leanet/circularbuffer.h:86-103 | For all indices: that value reads as the old contents followed by the data |
| RingBuffer.Buffer.constructor | src/leanet/circularbuffer.h:18-26 | Empty, with the room asked for |
| RingBuffer.Buffer.Copy | src/leanet/circularbuffer.h:28-46 | A copy has its own array, the same indices and the same contents, wrapped or not |
| RingBuffer.Buffer.Assign | src/leanet/circularbuffer.h:48-52 | Assignment takes over the contents, also from itself |
| RingBuffer.Buffer.ReadableBytes | src/leanet/circularbuffer.h:65-72 | The length of the contents, wrapped or not |
| RingBuffer.Buffer.Append | src/leanet/circularbuffer.h:86-103 | The contents get the data behind; append, extend and append again terminate |
| RingBuffer.Buffer.EnsureWritableBytes | src/leanet/circularbuffer.h:151-156 | Room for the data, same contents, and nothing changes when there was room |
| RingBuffer.Buffer.Extend | src/leanet/circularbuffer.h:200-213 | An array of twice the need and one byte, with the same contents and room for the data |
| RingBuffer.Buffer.Retrieve | src/leanet/circularbuffer.h:122-128 | The contents lose their first bytes, or all of them; emptied, the indices return to zero |
| RingBuffer.Buffer.RetrieveAsString | src/leanet/circularbuffer.h:132-145 | All readable bytes are returned and len of them consumed; string and rest make up the contents if and only if len was not less than what there was |
| RingBuffer.Buffer.RetrieveAllAsString | src/leanet/circularbuffer.h:147-149 | Returns the contents and empties the buffer |
| BufferRefinement.StepLinear | src/leanet/buffer.h:61-230 | Every operation of the linear buffer, prepend, unwrite and readFd among them, is one function on the byte sequence |
| BufferRefinement.StepRing | src/leanet/circularbuffer.h:28-128 | The same function for the ring |
| BufferRefinement.Lockstep | src/leanet/circularbuffer.h:28-213 | Driven by any operations that both have, from any initial sizes, both buffers hold the same byte sequence |
| BufferRefinement.Drive | src/leanet/buffer.h:61-297 | Driven by all its operations, the linear buffer holds what they make of the byte sequence, up to a prepend without room or a delivery that does not fit |
| MonitorSpec.PutKeeps | src/leanet/boundedblockingqueue.h:22-30 | put keeps: sleepers sleep rightly, capacity, order |
| MonitorSpec.GetKeeps | src/leanet/threadpool.cc:73-89 | get and take keep the same |
| MonitorSpec.RunKeeps | src/leanet/threadpool.cc:41-107 | Over every interleaving, spurious wakeups included |
| MonitorSpec.EveryInterleaving | src/leanet/boundedblockingqueue.h:22-42 | A thread sleeps on notEmpty only when the queue is empty (and the pool runs) and on notFull only when it is full, which `MonitorProgress.AsleepMeansAtCapacity` says in numbers; capacity kept; removed then queued is inserted; with positive capacity never both sides asleep |
| MonitorSpec.StoppedStep | src/leanet/threadpool.cc:96-107 | After stop a worker's own step lowers its distance from the exit, unless its task calls run() on a full queue, and nobody else's raises it |
| MonitorSpec.WorkersExit | src/leanet/threadpool.cc:41-50 | After stop every worker that gets that many steps has exited, also with tasks that call run(), unless one is held by a full queue |
| MonitorSpec.UnboundedNeverHolds | src/leanet/threadpool.cc:91-94 | A pool without a maximum never holds a task |
| MonitorSpec.WithoutRunNeverHolds | src/leanet/threadpool.cc:96-107 | A task that does not call run() is never held |
| MonitorSpec.HeldByRun | src/leanet/threadpool.cc:58-65 | A task that calls run() on a full queue is held |
| MonitorSpec.HeldForever | src/leanet/threadpool.cc:41-65 | After stop, once nobody takes, a worker whose task is held never exits |
| MonitorSpec.ExitsExactlyWhenNeverHeld | src/leanet/threadpool.cc:41-107 | After stop, once nobody takes, a worker that gets enough steps has exited if and only if it is never its turn while its task calls run() on a full queue |
| MonitorSpec.StopCanWaitForever | src/leanet/threadpool.cc:41-107 | For every positive maximum, a run from the start after which a worker of the stopped pool never exits, whatever happens |
| MonitorProgress.OnUnboundedPut | src/leanet/blockingqueue.h:20-26 | A put always appends, wakes whoever waits for an item, and moves nobody else |
| MonitorProgress.OnBoundedPut | src/leanet/boundedblockingqueue.h:22-30 | A put on a bounded queue appends if there are fewer items than the capacity, and otherwise sleeps |
| MonitorProgress.OnPoolPut | src/leanet/threadpool.cc:62-94 | run() appends if there is no maximum or there are fewer tasks, and otherwise sleeps |
| MonitorProgress.OnGet | src/leanet/threadpool.cc:73-89 | get and take remove the front item if there is one and wake producers where there is a bound; otherwise the thread sleeps, or goes on if the pool was stopped |
| MonitorProgress.OnWorker | src/leanet/threadpool.cc:96-107 | A worker tests running_ before each task and makes the task's calls of run() in order |
| MonitorProgress.OnCall | src/leanet/threadpool.cc:58-76 | An idle thread begins its call where the source does, and a worker at the test of running_ |
| MonitorProgress.OnSpurious | src/leanet/boundedblockingqueue.h:24-36 | A spurious wakeup makes that thread test its condition again, and moves nobody else |
| MonitorProgress.OnStop | src/leanet/threadpool.cc:41-46 | stop clears the flag and wakes every worker that sleeps for a task, and nobody that sleeps for room |
| MonitorProgress.AsleepMeansAtCapacity | src/leanet/boundedblockingqueue.h:24-26 | In every interleaving a thread on notFull means exactly as many items as the capacity, or as a positive maximum; never in an unbounded queue |
| MonitorProgress.TakenThenQueued | src/leanet/boundedblockingqueue.h:22-42 | In every interleaving the items removed, then those queued, are those of the puts that found room, in order |
| Monitor.Monitor.Push | src/leanet/threadpool.cc:66-69 | Append and wake every consumer |
| Monitor.Monitor.Pop | src/leanet/threadpool.cc:80-86 | Remove the front and, in a bounded queue, wake every producer |
| Monitor.Monitor.Wait | src/leanet/boundedblockingqueue.h:24-26 | A wait, whatever the others do meanwhile, is exactly: fall asleep, their events, wake up; after it the thread tests its condition again |
| Monitor.Monitor.Put | src/leanet/boundedblockingqueue.h:22-30 | The wait loop of put and run: with room it appends at once; otherwise it sleeps as often as it is full, and ends with the item at the back or as many items as the capacity |
| Monitor.Monitor.Get | src/leanet/threadpool.cc:73-89 | The wait loop of get and take: with an item it removes the front at once; otherwise it sleeps as often as the queue is empty, and ends with the front item removed or the queue empty |
| Monitor.OthersOnlyWake | src/leanet/blockingqueue.h:20-38 | Other threads can wake a sleeping thread and do nothing else to it |
| ConnectorSpec.ConnectKeeps | src/leanet/connector.cc:64-103 | An attempt puts the new socket in exactly one place, whatever connect says |
| ConnectorSpec.ReleaseKeeps | src/leanet/connector.cc:118-163 | A socket that leaves the channel is closed once or handed over once |
| ConnectorSpec.StepKeeps | src/leanet/connector.cc:26-188 | Every step but a retry that comes too soon, or a start() when the connector is not quiet, keeps sockets, attempts, channel and back-off right |
| ConnectorSpec.RunKeeps | src/leanet/connector.cc:26-188 | Over every run with start() called when quiet the invariant holds if and only if no retry came too soon |
| ConnectorSpec.OneStartIsQuiet | src/leanet/connector.cc:26-29 | A run with one start() is such a run |
| ConnectorSpec.SocketsConserved | src/leanet/connector.cc:26-188 | Over such a run every socket created is in exactly one place: owned, closed once, or handed over once; one retry timer at most; the k-th delay is min(500*2^k, 30000) |
| ConnectorSpec.AssertFailsExactlyWhenTooSoon | src/leanet/connector.cc:40-163 | Over such a run an assert of startInLoop, connecting or handleWrite fails if and only if a retry timer makes a channel while a resetChannel is queued |
| ConnectorSpec.HandedOverIsFinal | src/leanet/connector.cc:149-155 | Once connected, nothing more is opened, closed or handed over |
| ConnectorSpec.HandedOverOnce | src/leanet/connector.cc:149-155 | Over such a run at most one socket is handed over |
| ConnectorSpec.SecondStart | src/leanet/connector.cc:26-48 | After a start() no continuation in the right order and without a further start() fails an assert, if and only if nothing was queued, planned, under way or successful and no resetChannel was queued |
| ConnectorSpec.StartKeepsExactlyWhenQuiet | src/leanet/connector.cc:26-29 | A start() keeps the invariant if and only if the connector is quiet |
| ConnectorSpec.LateResetLosesASocket | src/leanet/connector.cc:128-134 | A run in which a late resetChannel leaves a socket nowhere |
| ConnectorProgress.StartInLoopAttempts | src/leanet/connector.cc:40-103 | The queued startInLoop of a wanted connection opens a socket: under way it is registered with a new channel, after a retryable errno closed behind a timer with the current delay, after a hopeless one just closed |
| ConnectorProgress.TimerAttempts | src/leanet/connector.cc:40-103 | The same of the retry timer |
| ConnectorProgress.HandleWriteDecides | src/leanet/connector.cc:136-156 | While connecting: an error or a self-connection is retried; otherwise the socket is handed over if still wanted and closed if not |
| ConnectorProgress.HandleErrorRetries | src/leanet/connector.cc:165-188 | handleError while connecting closes the socket and plans another attempt if one is wanted |
| ConnectorProgress.StopInLoopGivesUp | src/leanet/connector.cc:55-62 | stopInLoop while connecting closes the socket, and plans another attempt if one is wanted again |
| ConnectorProgress.OtherwiseNothing | src/leanet/connector.cc:55-173 | Outside kConnecting the handlers and stopInLoop change nothing |
| ConnectorProgress.FlagsAndFunctors | src/leanet/connector.cc:26-53 | start and stop set what is wanted and queue one functor each, and resetChannel drops the channel |
| ConnectorProgress.KeepsTrying | src/leanet/connector.cc:26-188 | After start(), with no stop() and no hopeless errno: exactly one attempt is queued, planned, under way or successful, whatever else happens, and a successful one was handed over |
| ConnectorProgress.StopStops | src/leanet/connector.cc:50-62 | After stop() and its functor nothing is wanted or under way |
| ConnectorProgress.StoppedIsFinal | src/leanet/connector.cc:26-188 | A stopped connector opens, closes and hands over nothing in any run without a start() |
| Connector.Connector.Start | src/leanet/connector.cc:26-29 | start is one step, and keeps the invariant if and only if the connector is quiet |
| Connector.Connector.Stop | src/leanet/connector.cc:50-53 | stop, any number of times, is one step and keeps the invariant |
| Connector.Connector.RunQueuedStart | src/leanet/connector.cc:40-48 | The first startInLoop is one step, finds its assert true, and keeps the invariant |
| Connector.Connector.ResetChannel | src/leanet/connector.cc:132-134 | resetChannel is one step and keeps the invariant |
| Connector.Connector.Connect | src/leanet/connector.cc:64-103 | The three families of errno: register, retry, close; the step that `ConnectorProgress.StartInLoopAttempts` is about |
| Connector.Connector.Retry | src/leanet/connector.cc:175-188 | Close, and if still wanted plan another attempt and double the capped delay |
| Connector.Connector.RetryTimer | src/leanet/connector.cc:40-48 | The retry timer's startInLoop is one step, and keeps the invariant unless it makes a channel while a resetChannel is queued |
| Connector.Connector.StopInLoop | src/leanet/connector.cc:55-62 | stopInLoop is one step and keeps the invariant |
| Connector.Connector.HandleWrite | src/leanet/connector.cc:136-163 | handleWrite is one step and keeps the invariant: error, connected to itself, connected, no longer wanted |
| Connector.Connector.HandleError | src/leanet/connector.cc:165-173 | handleError is one step and keeps the invariant |
| LogStream.ReadsBack | src/leanet/logstream.cc:22-56 | Reading the digits gives the value, in base 10 and 16, with no leading zero |
| LogStream.NumeralReadsBack | src/leanet/logstream.cc:22-40 | Reading the numeral gives the value, for every integer |
| LogStream.NumeralFits | src/leanet/logstream.h:160 | The text of every 64-bit integer and its NUL fit 32 bytes, in both bases |
| LogStream.Reverse | src/leanet/logstream.cc:38 | In-place reversal of the prefix, and nothing after it changes |
| LogStream.Truncation | src/leanet/logstream.cc:27-31 | The digit table read at a possibly negative remainder gives the digit of its magnitude |
| LogStream.WriteDigit | src/leanet/logstream.cc:26-32 | A turn of either loop moves one digit from what is to be written to what is written backwards |
| LogStream.WriteBackwards | src/leanet/logstream.cc:26-32 | The loop writes the magnitude's digits backwards, also for the most negative integer |
| LogStream.Convert | src/leanet/logstream.cc:22-40 | convert writes the canonical decimal numeral and a NUL, for every machine integer |
| LogStream.ConvertHex | src/leanet/logstream.cc:42-56 | convertHex writes the canonical hexadecimal numeral and a NUL |

## Left out

- TimerQueueHistory.NoTimerIsLost: needs a positive clock, because reset does not arm for a non-positive expiration; that the timerfd's monotonic clock and the wall clock differ is not modelled.
- UtcTime.UtcRoundTrip: covers the times whose day number is at least -32044 and does not overflow an int; `tm_zone` and the flag that skips `tm_yday` are not modelled.
- UtcTime.FieldsRoundTrip: stated over unbounded years, while the code's int products overflow for years past about 5.8 million; `Calendar.DateFitsInt32` shows that they fit up to the last day of `UtcTime.UtcRoundTrip`.
- Calendar.DayNumberInverts: likewise stated over unbounded years; `Calendar.FitsInt32` and `Calendar.DateFitsInt32` give the days on which both conversions fit an int.
- RingBuffer.Buffer.ReadableBytes: a ring above 2 GiB, where the difference of the indices overflows an int, is not modelled.
- MonitorSpec.WorkersExit: a task is a finite list of run() calls; whatever else it does takes no step. A client that sleeps on notFull when stop() runs is woken by a worker that still takes, not by stop().
- TimeZone.FromLocalTime: the process time zone and the normalisation that mktime does to its argument are behind the parameter.
- Connector::restart, which sets the state back without giving up the channel or the socket.
- TcpConnection::connectDestroyed: modelled as the same step as handleClose; its assert contradicts the state that handleClose leaves.
- TcpConnection::send from another thread binds the caller's pointer; data is a value here.
- The reading side of TcpConnection, and its callbacks' own contents.
- EPollPoller::poll and fillActiveChannels, and Poller::poll: the kernel's answer is an argument.
- The destructor of TimerQueue and timers that are still waiting for addTimerInLoop when it runs.
- Intervals as floating-point seconds, and printing of pointers and floating-point numbers.
- ThreadPool::start and its inverted assert, thread creation and joining, and a pool without threads.
- BlockingQueue's reference to a front that has been popped: items are values.
- parseTimeZoneFile: zones start as the parsed transitions and types.
- FixedBuffer and LogStream's own buffer bookkeeping.
- System calls, socket options, address conversion and the logger.
- TcpServer, TcpClient, the loop thread pool, CountdownLatch, Atomic, ThreadLocal and StringView are not modelled.
