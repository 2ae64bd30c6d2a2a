/**
 What a TimerQueue does for its users, besides doing no harm: a timer that was inserted
 stays until it is cancelled or, if it is one-shot, until it was called, and a repeating
 one comes back after every call.
 */
module TimerQueueProgress {
  import opened OrderedTimers
  import opened TimerQueueSpec
  import opened TimerQueueSafety
  import opened TimerQueueHistory

  // The timer of this id is in timers_, under its expiration, and in activeTimers_.
  ghost predicate Pending(s: State, id: TimerId) {
    && id.addr in s.heap && IdAt(s, id.addr) == id && id.addr !in s.waiting
    && id in s.active && Entry(s.heap[id.addr].expiration, id.addr) in s.timers
  }

  // ----- single operations -----

  /** addTimer: a timer as it was asked for, under a number that no timer had before. */
  lemma NewTimerIsAsAsked(s: State, a: Addr, when: int, repeat: bool, interval: nat)
    requires Inv(s) && a !in s.heap
    ensures var t := Act(s, New(a, when, repeat, interval));
            && a in t.heap && a in t.waiting
            && t.heap[a].expiration == when && t.heap[a].repeat == repeat && t.heap[a].interval == interval
            && (forall b :: b in s.heap ==> b in t.heap && t.heap[b] == s.heap[b] && t.heap[b].sequence != t.heap[a].sequence)
            && t.timers == s.timers && t.active == s.active
  {
  }

  /** addTimerInLoop files the timer, under the expiration it has, and moves no other. */
  lemma InsertFiles(s: State, a: Addr)
    requires Inv(s) && a in s.waiting && !s.phase.Resetting?
    ensures var t := Act(s, Insert(a));
            && Pending(t, IdAt(s, a)) && t.heap == s.heap && t.waiting == s.waiting - {a}
            && (forall e :: e in t.timers <==> e in s.timers || e == Entry(s.heap[a].expiration, a))
            && t.active == s.active + {IdAt(s, a)}
  {
    assert a in s.heap;
  }

  /** Cancelling one id leaves every other timer as it was: pending or in the batch, and unmarked. */
  lemma CancelLeavesOthers(s: State, id: TimerId, x: TimerId)
    requires Inv(s) && x != id
    ensures var t := Act(s, Cancel(id));
            && (x in t.active <==> x in s.active) && (x in t.canceling <==> x in s.canceling)
            && (x.addr in s.heap && IdAt(s, x.addr) == x ==> x.addr in t.heap && t.heap[x.addr] == s.heap[x.addr])
            && (Pending(s, x) ==> Pending(t, x))
            && Batch(t) == Batch(s) && t.waiting == s.waiting && t.fd == s.fd
  {
    if id in s.active && !s.phase.Resetting? {
      DeleteActive(s, id);
    }
  }

  /** Setting the timerfd: it goes off no earlier than the expiration it is set for, and no later but for
      the floor of 100 microseconds. */
  lemma ArmedForExpiration(s: State, when: int)
    ensures var fd := Arm(s, when).fd;
            && fd.Armed? && fd.setAt == s.clock && fd.deadline >= when && fd.deadline >= s.clock + 100
            && (fd.deadline == when || fd.deadline == s.clock + 100)
  {
  }

  /** After handleRead has begun, the timerfd is not readable, and one that was not stays as it was. */
  lemma ReadEndsReadiness(s: State)
    requires s.phase.Idle?
    ensures var fd := BeginHandleRead(s).fd;
            && !(fd.Armed? && fd.deadline <= s.clock)
            && (!(s.fd.Armed? && s.fd.deadline <= s.clock) ==> fd == s.fd)
  {
  }

  /** handleRead goes from phase to phase: it calls the batch one by one, then looks at it one by one in reset,
      and comes to its end. */
  lemma PhasesAdvance(s: State)
    ensures s.phase.Idle? ==> BeginHandleRead(s).phase == Calling(BeginHandleRead(s).phase.batch, 0, s.clock)
    ensures s.phase.Calling? ==>
              var batch, n, now := s.phase.batch, s.phase.next, s.phase.now;
              if n < |batch| then Fire(s).phase == Calling(batch, n + 1, now)
              else EndCalling(s).phase == Resetting(batch, 0, now) && !EndCalling(s).calling
    ensures s.phase.Resetting? ==>
              var batch, n, now := s.phase.batch, s.phase.next, s.phase.now;
              if n < |batch| then ResetOne(s).phase == Resetting(batch, n + 1, now)
              else FinishReset(s).phase.Idle?
    ensures forall elapsed :: Act(s, Tick(elapsed)) == s.(clock := s.clock + elapsed)
  {
  }

  // What reset does for a repeating timer that was not cancelled.
  lemma Restarts(s: State)
    requires s.phase.Resetting? && s.phase.next < |s.phase.batch|
    requires var a := s.phase.batch[s.phase.next].addr; a in s.heap && At(s, a).repeat && IdAt(s, a) !in s.canceling
    ensures var t, a := ResetOne(s), s.phase.batch[s.phase.next].addr;
            var restarted := s.heap[a].(expiration := s.phase.now + s.heap[a].interval);
            && t.heap == s.heap[a := restarted] && t.waiting == s.waiting
            && t.timers == Add(s.timers, Entry(restarted.expiration, a)) && t.active == s.active + {IdAt(s, a)}
  {
  }

  /** reset: a repeating timer that was not cancelled is pending again, an interval after now. */
  lemma RestartFiles(s: State)
    requires Inv(s) && s.phase.Resetting? && s.phase.next < |s.phase.batch|
    requires var a := s.phase.batch[s.phase.next].addr; At(s, a).repeat && IdAt(s, a) !in s.canceling
    ensures var t, a := ResetOne(s), s.phase.batch[s.phase.next].addr;
            && Pending(t, IdAt(s, a))
            && t.heap == s.heap[a := s.heap[a].(expiration := s.phase.now + s.heap[a].interval)]
            && (forall e :: e in t.timers <==> e in s.timers || e == Entry(s.phase.now + s.heap[a].interval, a))
  {
    BatchHead(s);
    Restarts(s);
  }

  // ----- over runs -----

  // The timer of this id is owned by the queue and not cancelled.
  ghost predicate Kept(s: State, id: TimerId) {
    && id.addr in s.heap && IdAt(s, id.addr) == id && id.addr !in s.waiting && id !in s.canceling
  }

  ghost predicate WasCalled(s: State, id: TimerId) {
    exists i :: 0 <= i < |s.log| && s.log[i].id == id
  }

  // Every timer of the batch that has been called is in the log.
  ghost predicate CalledAreLogged(s: State) {
    forall a :: a in s.heap && Called(s, a) ==> WasCalled(s, IdAt(s, a))
  }

  lemma LogKeepsCalls(s: State, t: State, id: TimerId)
    requires WasCalled(s, id) && |s.log| <= |t.log| && t.log[..|s.log|] == s.log
    ensures WasCalled(t, id)
  {
    var i :| 0 <= i < |s.log| && s.log[i].id == id;
    assert t.log[i] == t.log[..|s.log|][i];
  }

  lemma StepExtendsLog(s: State, e: Event)
    ensures |s.log| <= |Step(s, e).log| && Step(s, e).log[..|s.log|] == s.log
  {
  }

  lemma FireKeepsCalledLogged(s: State)
    requires Inv(s) && CalledAreLogged(s) && s.phase.Calling? && s.phase.next < |s.phase.batch|
    ensures CalledAreLogged(Fire(s))
  {
    var t, batch, n := Fire(s), s.phase.batch, s.phase.next;
    assert batch[n] in Batch(s) && Names(s, batch[n]);
    assert batch[..n + 1] == batch[..n] + [batch[n]];
    StepExtendsLog(s, CallNext);
    forall a | a in t.heap && Called(t, a) ensures WasCalled(t, IdAt(t, a)) {
      if EntryAt(t, a) == batch[n] {
        assert t.log[|s.log|].id == IdAt(t, a);
      } else {
        assert EntryAt(s, a) in batch[..n];
        LogKeepsCalls(s, t, IdAt(s, a));
      }
    }
  }

  // A step that makes no call and adds nobody to those who were called.
  lemma FrameKeepsCalledLogged(s: State, t: State)
    requires CalledAreLogged(s) && t.log == s.log
    requires forall a :: a in t.heap && Called(t, a) ==> a in s.heap && IdAt(t, a) == IdAt(s, a) && Called(s, a)
    ensures CalledAreLogged(t)
  {
    forall a | a in t.heap && Called(t, a) ensures WasCalled(t, IdAt(t, a)) {
      assert WasCalled(s, IdAt(s, a));
    }
  }

  lemma CalledAreInBatch(s: State, a: Addr)
    requires Called(s, a)
    ensures EntryAt(s, a) in Batch(s)
  {
    match s.phase
    case Calling(batch, next, _) => assert EntryAt(s, a) in batch[..next];
    case Resetting(batch, next, _) => assert EntryAt(s, a) in batch[next..];
  }

  lemma ActChangesNoTimer(s: State, x: Action, a: Addr)
    requires a in s.heap && a in Act(s, x).heap
    ensures Act(s, x).heap[a] == s.heap[a]
  {
  }

  // An action moves no timer of the batch to another address or number.
  lemma ActKeepsCalled(s: State, x: Action, a: Addr)
    requires OneOwner(s)
    requires a in Act(s, x).heap && Called(Act(s, x), a)
    ensures a in s.heap && IdAt(Act(s, x), a) == IdAt(s, a) && Called(s, a)
  {
    var t := Act(s, x);
    ActFrames(s, x);
    CalledAreInBatch(t, a);
    assert Batch(t) == Batch(s) && Names(s, EntryAt(t, a));
    ActChangesNoTimer(s, x, a);
  }

  lemma StepKeepsCalledLogged(s: State, e: Event)
    requires Inv(s) && CalledAreLogged(s)
    ensures CalledAreLogged(Step(s, e))
  {
    match e
    case Do(x) =>
      ActFrames(s, x);
      forall a | a in Act(s, x).heap && Called(Act(s, x), a)
        ensures a in s.heap && IdAt(Act(s, x), a) == IdAt(s, a) && Called(s, a)
      {
        ActKeepsCalled(s, x, a);
      }
      FrameKeepsCalledLogged(s, Act(s, x));
    case CallNext =>
      if s.phase.Calling? && s.phase.next < |s.phase.batch| {
        FireKeepsCalledLogged(s);
      }
    case ResetNext =>
      if s.phase.Resetting? && s.phase.next < |s.phase.batch| {
        ResetKeepsCalledLogged(s);
      }
    case EndCalls =>
      if s.phase.Calling? && s.phase.next == |s.phase.batch| {
        assert s.phase.batch[0..] == s.phase.batch[..s.phase.next];
        FrameKeepsCalledLogged(s, EndCalling(s));
      }
    case BeginRead => FrameKeepsCalledLogged(s, BeginHandleRead(s));
    case Finish => FrameKeepsCalledLogged(s, FinishReset(s));
  }

  lemma ResetKeepsCalledLogged(s: State)
    requires Inv(s) && CalledAreLogged(s) && s.phase.Resetting? && s.phase.next < |s.phase.batch|
    ensures CalledAreLogged(ResetOne(s))
  {
    var t, batch, n := ResetOne(s), s.phase.batch, s.phase.next;
    ResetOneFrames(s);
    BatchHead(s);
    assert batch[n..] == [batch[n]] + batch[n + 1..];
    forall a | a in t.heap && Called(t, a)
      ensures a in s.heap && IdAt(t, a) == IdAt(s, a) && Called(s, a)
    {
      assert EntryAt(t, a) in batch[n + 1..];
      assert a != batch[n].addr;
      assert EntryAt(t, a) == EntryAt(s, a);
    }
    FrameKeepsCalledLogged(s, t);
  }

  lemma ActKeepsTimer(s: State, x: Action, id: TimerId)
    requires Inv(s) && Kept(s, id) && x != Cancel(id)
    ensures var t := Act(s, x); Kept(t, id) && t.heap[id.addr].repeat == s.heap[id.addr].repeat
  {
    if x.Cancel? {
      CancelLeavesOthers(s, x.id, id);
    }
  }

  // A kept timer stays kept in a step that does not cancel it, or is one-shot and was called.
  lemma StepKeepsTimer(s: State, e: Event, id: TimerId)
    requires Inv(s) && CalledAreLogged(s) && Kept(s, id) && e != Do(Cancel(id))
    ensures var t := Step(s, e);
            || (Kept(t, id) && t.heap[id.addr].repeat == s.heap[id.addr].repeat)
            || (!s.heap[id.addr].repeat && WasCalled(t, id))
  {
    match e
    case Do(x) => ActKeepsTimer(s, x, id);
    case ResetNext =>
      if s.phase.Resetting? && s.phase.next < |s.phase.batch| {
        ResetKeepsTimer(s, id);
      }
    case BeginRead =>
    case CallNext =>
    case EndCalls =>
    case Finish =>
  }

  lemma ResetKeepsTimer(s: State, id: TimerId)
    requires Inv(s) && CalledAreLogged(s) && Kept(s, id)
    requires s.phase.Resetting? && s.phase.next < |s.phase.batch|
    ensures var t := ResetOne(s);
            || (Kept(t, id) && t.heap[id.addr].repeat == s.heap[id.addr].repeat)
            || (!s.heap[id.addr].repeat && WasCalled(t, id))
  {
    BatchHead(s);
    var e := s.phase.batch[s.phase.next];
    if e.addr == id.addr {
      if s.heap[id.addr].repeat {
        RestartFiles(s);
      } else {
        assert EntryAt(s, id.addr) == e && Called(s, id.addr);
        LogKeepsCalls(s, ResetOne(s), id);
      }
    }
  }

  // What becomes of a timer that was kept in s, and repeats or not.
  ghost predicate NotForgotten(t: State, id: TimerId, repeat: bool) {
    (Kept(t, id) && t.heap[id.addr].repeat == repeat) || (!repeat && WasCalled(t, id))
  }

  lemma {:induction false} RunForgetsNoTimer(s: State, es: seq<Event>, id: TimerId, repeat: bool)
    requires Inv(s) && CalledAreLogged(s) && NotForgotten(s, id, repeat) && Do(Cancel(id)) !in es
    ensures NotForgotten(Run(s, es), id, repeat)
    decreases |es|
  {
    if es != [] {
      assert es[0] in es && forall e :: e in es[1..] ==> e in es;
      StepKeeps(s, es[0]);
      StepKeepsCalledLogged(s, es[0]);
      if Kept(s, id) && s.heap[id.addr].repeat == repeat {
        StepKeepsTimer(s, es[0], id);
      } else {
        StepExtendsLog(s, es[0]);
        LogKeepsCalls(s, Step(s, es[0]), id);
      }
      RunForgetsNoTimer(Step(s, es[0]), es[1..], id, repeat);
    }
  }

  /** Whatever happens but its own cancellation: an inserted timer is pending or in the batch, or it is one-shot
      and was called. A repeating timer is pending or in the batch for ever. */
  lemma NoTimerIsForgotten(s: State, es: seq<Event>, id: TimerId)
    requires Inv(s) && CalledAreLogged(s) && Kept(s, id) && Do(Cancel(id)) !in es
    ensures var t := Run(s, es);
            || Pending(t, id)
            || (id.addr in t.heap && IdAt(t, id.addr) == id && EntryAt(t, id.addr) in Batch(t))
            || (!s.heap[id.addr].repeat && WasCalled(t, id))
  {
    RunForgetsNoTimer(s, es, id, s.heap[id.addr].repeat);
    RunKeeps(s, es);
    var t := Run(s, es);
    if Kept(t, id) {
      assert EntryAt(t, id.addr) in t.timers || EntryAt(t, id.addr) in Batch(t);
    }
  }

  lemma {:induction false} RunKeepsCalledLogged(s: State, es: seq<Event>)
    requires Inv(s) && CalledAreLogged(s)
    ensures CalledAreLogged(Run(s, es))
    decreases |es|
  {
    if es != [] {
      StepKeeps(s, es[0]);
      StepKeepsCalledLogged(s, es[0]);
      RunKeepsCalledLogged(Step(s, es[0]), es[1..]);
    }
  }

  /** In every run of a new queue: once a repeating timer has been inserted it is pending outside handleRead,
      unless it is cancelled. */
  lemma RepeatingTimersStay(garbage: bool, clock: int, es: seq<Event>, fs: seq<Event>, id: TimerId)
    requires var s := Run(Start(garbage, clock), es); Kept(s, id) && s.heap[id.addr].repeat
    requires Do(Cancel(id)) !in fs
    ensures var t := Run(Run(Start(garbage, clock), es), fs); t.phase.Idle? ==> Pending(t, id)
  {
    StartKeeps(garbage, clock);
    RunKeeps(Start(garbage, clock), es);
    RunKeepsCalledLogged(Start(garbage, clock), es);
    var s := Run(Start(garbage, clock), es);
    NoTimerIsForgotten(s, fs, id);
    RunForgetsNoTimer(s, fs, id, true);
  }
}
