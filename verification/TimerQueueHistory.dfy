/**
 What the callbacks of a TimerQueue can rely on over whole runs: never early, one-shot
 timers at most once, cancellation final, and the timerfd never left unset.
 */
module TimerQueueHistory {
  import opened OrderedTimers
  import opened TimerQueueSpec
  import opened TimerQueueSafety

  // ----- each batch -----

  // getExpired takes exactly the timers that are due, earliest first.
  lemma BatchIsExactlyTheDue(s: State)
    requires Inv(s) && s.phase.Idle?
    ensures var t := BeginHandleRead(s);
            && t.phase == Calling(t.phase.batch, 0, s.clock)
            && Ordered(t.phase.batch)
            && (forall e :: e in t.phase.batch <==> e in s.timers && e.when <= s.clock)
            && (forall e :: e in t.timers <==> e in s.timers && e.when > s.clock)
  {
    var k := LowerBound(s.timers, Sentry(s.clock));
    SplitOrdered(s.timers, k);
    forall e | e in s.timers[..k] ensures e.when <= s.clock {
      assert Before(e, Sentry(s.clock));
    }
    forall e | e in s.timers[k..] ensures e.when > s.clock {
      assert !Before(e, Sentry(s.clock)) && Names(s, e);
    }
  }

  // ----- the log of callbacks -----

  // A timer of the current batch whose callback has been made.
  ghost predicate Called(s: State, a: Addr) {
    match s.phase
    case Idle => false
    case Calling(batch, next, _) => next <= |batch| && EntryAt(s, a) in batch[..next]
    case Resetting(batch, next, _) => next <= |batch| && EntryAt(s, a) in batch[next..]
  }

  ghost predicate NeverEarly(s: State) {
    forall i :: 0 <= i < |s.log| ==>
      s.log[i].expiration <= s.log[i].now && 1 <= s.log[i].id.sequence <= s.created
  }

  ghost predicate OneShotOnce(s: State) {
    forall i, j :: 0 <= i < j < |s.log| && s.log[i].id.sequence == s.log[j].id.sequence ==>
      s.log[i].repeat && s.log[j].repeat
  }

  // A live timer that has fired is the one that was logged, and if it is one-shot it waits for deletion.
  ghost predicate LogMatchesHeap(s: State) {
    forall i, a :: 0 <= i < |s.log| && a in s.heap && s.heap[a].sequence == s.log[i].id.sequence ==>
      && s.log[i].id.addr == a
      && s.log[i].repeat == s.heap[a].repeat
      && (!s.log[i].repeat ==> Called(s, a))
  }

  // While callbacks run, the end of the log is the part of the batch already called, in batch order.
  ghost predicate LogFollowsBatch(s: State) {
    s.phase.Calling? ==>
      var n := s.phase.next;
      && n <= |s.phase.batch| && n <= |s.log|
      && forall k :: |s.log| - n <= k < |s.log| ==>
           var e := s.phase.batch[k - (|s.log| - n)];
           s.log[k].id.addr == e.addr && s.log[k].expiration == e.when && s.log[k].now == s.phase.now
  }

  ghost predicate History(s: State) {
    NeverEarly(s) && OneShotOnce(s) && LogMatchesHeap(s) && LogFollowsBatch(s)
  }

  // What an action leaves alone: it may delete timers, allocate new ones and mark some as cancelled.
  ghost predicate Frame(s: State, t: State) {
    && t.log == s.log && t.phase == s.phase && s.created <= t.created
    && s.canceling <= t.canceling
    && forall a :: a in t.heap ==>
         (a in s.heap && t.heap[a] == s.heap[a]) || s.created < t.heap[a].sequence
  }

  lemma ActFrames(s: State, x: Action)
    ensures Frame(s, Act(s, x))
  {
  }

  lemma FrameKeepsHistory(s: State, t: State)
    requires History(s) && Frame(s, t)
    ensures History(t)
  {
    assert LogMatchesHeap(t) by {
      forall i, a | 0 <= i < |t.log| && a in t.heap && t.heap[a].sequence == t.log[i].id.sequence
        ensures t.log[i].id.addr == a && t.log[i].repeat == t.heap[a].repeat
        ensures !t.log[i].repeat ==> Called(t, a)
      {
        assert a in s.heap && EntryAt(t, a) == EntryAt(s, a);
      }
    }
  }

  // The timer about to fire has not fired in this batch.
  lemma NextIsNotCalled(s: State)
    requires Inv(s) && s.phase.Calling? && s.phase.next < |s.phase.batch|
    ensures var e := s.phase.batch[s.phase.next];
            Names(s, e) && EntryAt(s, e.addr) == e && !Called(s, e.addr)
  {
    var batch, n := s.phase.batch, s.phase.next;
    assert batch[n] in Batch(s);
    SplitOrdered(batch, n);
    assert batch[n..][0] == batch[n];
  }

  lemma FireKeepsLog(s: State)
    requires Inv(s) && History(s) && s.phase.Calling? && s.phase.next < |s.phase.batch|
    ensures NeverEarly(Fire(s)) && OneShotOnce(Fire(s)) && LogFollowsBatch(Fire(s))
  {
    NextIsNotCalled(s);
  }

  lemma FireKeepsLogMatchesHeap(s: State)
    requires Inv(s) && History(s) && s.phase.Calling? && s.phase.next < |s.phase.batch|
    ensures LogMatchesHeap(Fire(s))
  {
    NextIsNotCalled(s);
    var t, batch, n := Fire(s), s.phase.batch, s.phase.next;
    assert batch[..n + 1] == batch[..n] + [batch[n]];
    assert forall a :: Called(s, a) ==> Called(t, a);
    assert Called(t, batch[n].addr);
  }

  lemma FireKeepsHistory(s: State)
    requires Inv(s) && History(s)
    ensures History(Fire(s))
  {
    if s.phase.Calling? && s.phase.next < |s.phase.batch| {
      FireKeepsLog(s);
      FireKeepsLogMatchesHeap(s);
    }
  }

  // What the heap and the log say stays true when only the phase moves on and nobody stops having been called.
  lemma PhaseKeepsHistory(s: State, t: State)
    requires History(s) && t.log == s.log && t.heap == s.heap && t.created == s.created
    requires forall a :: Called(s, a) ==> Called(t, a)
    requires LogFollowsBatch(t)
    ensures History(t)
  {
  }

  lemma FinishKeepsHistory(s: State)
    requires History(s)
    ensures History(FinishReset(s))
  {
    if s.phase.Resetting? && s.phase.next >= |s.phase.batch| {
      assert forall a :: !Called(s, a);
      PhaseKeepsHistory(s, FinishReset(s));
    }
  }

  lemma BeginReadKeepsHistory(s: State)
    requires History(s)
    ensures History(BeginHandleRead(s))
  {
    if s.phase.Idle? {
      PhaseKeepsHistory(s, BeginHandleRead(s));
    }
  }

  lemma EndCallingKeepsHistory(s: State)
    requires History(s)
    ensures History(EndCalling(s))
  {
    if s.phase.Calling? && s.phase.next >= |s.phase.batch| {
      assert s.phase.next == |s.phase.batch| ==> s.phase.batch[..s.phase.next] == s.phase.batch[0..];
      PhaseKeepsHistory(s, EndCalling(s));
    }
  }

  // What one iteration of reset leaves alone: every timer but the one it looks at.
  ghost predicate ResetFrame(s: State, t: State)
    requires s.phase.Resetting? && s.phase.next < |s.phase.batch|
  {
    var batch, next, now := s.phase.batch, s.phase.next, s.phase.now;
    && t.log == s.log && t.created == s.created && t.canceling == s.canceling
    && t.phase == Resetting(batch, next + 1, now)
    && (forall b :: b in t.heap && b != batch[next].addr ==> b in s.heap && t.heap[b] == s.heap[b])
    && (batch[next].addr in t.heap ==>
          var was := At(s, batch[next].addr);
          && t.heap[batch[next].addr] == was.(expiration := now + was.interval)
          && batch[next].addr in s.heap && was.repeat
          && IdAt(s, batch[next].addr) !in s.canceling)
  }

  lemma ResetOneFrames(s: State)
    requires s.phase.Resetting? && s.phase.next < |s.phase.batch|
    ensures ResetFrame(s, ResetOne(s))
  {
  }

  lemma ResetFrameKeepsCalled(s: State, t: State, b: Addr)
    requires s.phase.Resetting? && s.phase.next < |s.phase.batch| && ResetFrame(s, t)
    requires b in t.heap && b != s.phase.batch[s.phase.next].addr && Called(s, b)
    ensures Called(t, b)
  {
    var batch, n := s.phase.batch, s.phase.next;
    assert batch[n..] == [batch[n]] + batch[n + 1..];
    assert EntryAt(t, b) == EntryAt(s, b) != batch[n];
  }

  lemma ResetFrameKeepsHistory(s: State, t: State)
    requires History(s)
    requires s.phase.Resetting? && s.phase.next < |s.phase.batch| && ResetFrame(s, t)
    ensures History(t)
  {
    assert LogMatchesHeap(t) by {
      forall i, b | 0 <= i < |t.log| && b in t.heap && t.heap[b].sequence == t.log[i].id.sequence
        ensures t.log[i].id.addr == b && t.log[i].repeat == t.heap[b].repeat
        ensures !t.log[i].repeat ==> Called(t, b)
      {
        assert b in s.heap && s.heap[b].sequence == s.log[i].id.sequence;
        if b != s.phase.batch[s.phase.next].addr && !t.log[i].repeat {
          ResetFrameKeepsCalled(s, t, b);
        }
      }
    }
  }

  lemma StepKeepsHistory(s: State, e: Event)
    requires Inv(s) && History(s)
    ensures History(Step(s, e))
  {
    match e
    case Do(x) =>
      ActFrames(s, x);
      FrameKeepsHistory(s, Act(s, x));
    case BeginRead => BeginReadKeepsHistory(s);
    case CallNext => FireKeepsHistory(s);
    case EndCalls => EndCallingKeepsHistory(s);
    case ResetNext =>
      if s.phase.Resetting? && s.phase.next < |s.phase.batch| {
        ResetOneFrames(s);
        ResetFrameKeepsHistory(s, ResetOne(s));
      }
    case Finish => FinishKeepsHistory(s);
  }

  lemma {:induction false} RunKeepsHistory(s: State, es: seq<Event>)
    requires Inv(s) && History(s)
    ensures Inv(Run(s, es)) && History(Run(s, es))
    decreases |es|
  {
    if es != [] {
      StepKeeps(s, es[0]);
      StepKeepsHistory(s, es[0]);
      RunKeepsHistory(Step(s, es[0]), es[1..]);
    }
  }

  // ----- cancellation -----

  // The callbacks that the timer with this sequence number can still get from the current batch.
  ghost function Due(s: State, q: nat): nat {
    if s.phase.Calling? && exists k :: s.phase.next <= k < |s.phase.batch| && IdAt(s, s.phase.batch[k].addr).sequence == q
    then 1 else 0
  }

  function CountFired(log: seq<Fired>, q: nat): nat {
    if log == [] then 0
    else CountFired(log[..|log| - 1], q) + if log[|log| - 1].id.sequence == q then 1 else 0
  }

  // The timer of this id is deleted, or is in the batch and marked as cancelled.
  ghost predicate Gone(s: State, id: TimerId) {
    && 1 <= id.sequence <= s.created
    && forall a :: a in s.heap && s.heap[a].sequence == id.sequence ==>
         a == id.addr && id in s.canceling && EntryAt(s, a) in Batch(s)
  }

  lemma CancelMakesGone(s: State, id: TimerId)
    requires Inv(s) && !s.phase.Resetting?
    requires id.addr in s.heap && id.addr !in s.waiting && IdAt(s, id.addr) == id
    ensures Gone(CancelTimerInLoop(s, id), id)
    ensures CountFired(CancelTimerInLoop(s, id).log, id.sequence) == CountFired(s.log, id.sequence)
  {
  }

  lemma FrameKeepsGone(s: State, t: State, id: TimerId)
    requires Gone(s, id) && Frame(s, t)
    ensures Gone(t, id)
  {
    forall a | a in t.heap && t.heap[a].sequence == id.sequence
      ensures a == id.addr && id in t.canceling && EntryAt(t, a) in Batch(t)
    {
      assert a in s.heap && EntryAt(t, a) == EntryAt(s, a) && Batch(t) == Batch(s);
    }
  }

  lemma ResetFrameKeepsGone(s: State, t: State, id: TimerId)
    requires Inv(s) && Gone(s, id)
    requires s.phase.Resetting? && s.phase.next < |s.phase.batch| && ResetFrame(s, t)
    ensures Gone(t, id)
  {
    BatchHead(s);
    forall b | b in t.heap && t.heap[b].sequence == id.sequence
      ensures b == id.addr && id in t.canceling && EntryAt(t, b) in Batch(t)
    {
      assert b in s.heap && s.heap[b].sequence == id.sequence;
      assert IdAt(s, b) == id;
      assert EntryAt(t, b) == EntryAt(s, b);
    }
  }

  lemma GoneStays(s: State, e: Event, id: TimerId)
    requires Inv(s) && Gone(s, id)
    ensures Gone(Step(s, e), id)
  {
    match e
    case Do(x) =>
      ActFrames(s, x);
      FrameKeepsGone(s, Act(s, x), id);
    case ResetNext =>
      if s.phase.Resetting? && s.phase.next < |s.phase.batch| {
        ResetOneFrames(s);
        ResetFrameKeepsGone(s, ResetOne(s), id);
      }
    case EndCalls =>
      if s.phase.Calling? {
        assert s.phase.batch[0..] == s.phase.batch;
      }
    case Finish =>
    case BeginRead =>
    case CallNext =>
  }

  lemma FireUsesUpDue(s: State, id: TimerId)
    requires Inv(s) && s.phase.Calling? && s.phase.next < |s.phase.batch|
    ensures var t := Fire(s);
            CountFired(t.log, id.sequence) + Due(t, id.sequence) <= CountFired(s.log, id.sequence) + Due(s, id.sequence)
  {
    var t, q, batch, n := Fire(s), id.sequence, s.phase.batch, s.phase.next;
    assert batch[n] in Batch(s) && Names(s, batch[n]);
    assert t.log[..|t.log| - 1] == s.log;
    assert forall k :: n < k < |batch| ==> IdAt(t, batch[k].addr) == IdAt(s, batch[k].addr);
    if s.heap[batch[n].addr].sequence == q {
      forall k | n < k < |batch| ensures IdAt(t, batch[k].addr).sequence != q {
        assert batch[k] in Batch(s) && Names(s, batch[k]) && Before(batch[n], batch[k]);
      }
    }
  }

  lemma FrameKeepsDue(s: State, t: State, q: nat)
    requires Inv(s) && Frame(s, t) && q <= s.created
    requires Inv(t)
    ensures Due(t, q) <= Due(s, q)
  {
    if s.phase.Calling? {
      forall k | s.phase.next <= k < |s.phase.batch|
        ensures IdAt(t, s.phase.batch[k].addr).sequence == q ==> IdAt(s, s.phase.batch[k].addr).sequence == q
      {
        assert s.phase.batch[k] in Batch(s) && Names(s, s.phase.batch[k]);
        assert s.phase.batch[k] in Batch(t) && Names(t, s.phase.batch[k]);
      }
    }
  }

  lemma BeginReadAddsNoDue(s: State, id: TimerId)
    requires Inv(s) && Gone(s, id) && s.phase.Idle?
    ensures Due(BeginHandleRead(s), id.sequence) == 0
  {
    var t := BeginHandleRead(s);
    forall k | 0 <= k < |t.phase.batch| ensures IdAt(t, t.phase.batch[k].addr).sequence != id.sequence {
      assert t.phase.batch[k] in s.timers && Names(s, t.phase.batch[k]);
    }
  }

  lemma GoneDoesNotFireAgain(s: State, e: Event, id: TimerId)
    requires Inv(s) && Gone(s, id)
    ensures var t := Step(s, e);
            CountFired(t.log, id.sequence) + Due(t, id.sequence) <= CountFired(s.log, id.sequence) + Due(s, id.sequence)
  {
    match e
    case Do(x) =>
      ActFrames(s, x);
      StepKeeps(s, e);
      FrameKeepsDue(s, Act(s, x), id.sequence);
    case CallNext =>
      if s.phase.Calling? && s.phase.next < |s.phase.batch| {
        FireUsesUpDue(s, id);
      }
    case BeginRead =>
      if s.phase.Idle? {
        BeginReadAddsNoDue(s, id);
      }
    case EndCalls =>
    case ResetNext =>
    case Finish =>
  }

  lemma {:induction false} GoneForever(s: State, es: seq<Event>, id: TimerId)
    requires Inv(s) && Gone(s, id)
    ensures var t := Run(s, es);
            && Gone(t, id)
            && CountFired(t.log, id.sequence) + Due(t, id.sequence) <= CountFired(s.log, id.sequence) + Due(s, id.sequence)
    decreases |es|
  {
    if es != [] {
      StepKeeps(s, es[0]);
      GoneStays(s, es[0], id);
      GoneDoesNotFireAgain(s, es[0], id);
      GoneForever(Step(s, es[0]), es[1..], id);
    }
  }

  /** Cancelling an inserted timer is final: it is never in timers_ again, and it fires
      again only if its callback was still to come in the batch being executed, then once. */
  lemma CancelIsFinal(s: State, id: TimerId, es: seq<Event>)
    requires Inv(s) && !s.phase.Resetting?
    requires id.addr in s.heap && id.addr !in s.waiting && IdAt(s, id.addr) == id
    ensures var t := Run(CancelTimerInLoop(s, id), es);
            && id !in t.active
            && (forall e :: e in t.timers ==> IdAt(t, e.addr) != id)
            && CountFired(t.log, id.sequence) <= CountFired(s.log, id.sequence) + Due(s, id.sequence)
  {
    var c := CancelTimerInLoop(s, id);
    CancelKeeps(s, id);
    CancelMakesGone(s, id);
    GoneForever(c, es, id);
    var t := Run(c, es);
    RunKeeps(c, es);
    if s.phase.Calling? {
      forall k | s.phase.next <= k < |s.phase.batch|
        ensures IdAt(c, s.phase.batch[k].addr) == IdAt(s, s.phase.batch[k].addr)
      {
        assert s.phase.batch[k] in Batch(s) && Names(s, s.phase.batch[k]);
      }
    }
    forall e | e in t.timers ensures IdAt(t, e.addr) != id {
      assert Names(t, e) && EntryAt(t, e.addr) == e;
    }
  }

  // ----- the timerfd -----

  // The earliest timer is covered: the timerfd goes off at its expiration, or 100 microseconds
  // after it was set if that is later.
  ghost predicate Covered(s: State) {
    s.timers != [] ==>
      && s.fd.Armed?
      && s.fd.setAt <= s.clock
      && (s.fd.deadline <= s.timers[0].when || s.fd.deadline <= s.fd.setAt + 100)
  }

  // Between the first callback and the end of reset only a timer with a non-positive
  // expiration has to be covered, because reset() will not do it.
  ghost predicate TimerfdOk(s: State) {
    && s.clock > 0
    && match s.phase
       case Idle => Covered(s)
       case Calling(_, _, now) => now > 0 && (s.timers != [] && s.timers[0].when <= 0 ==> Covered(s))
       case Resetting(_, _, now) => now > 0 && (s.timers != [] && s.timers[0].when <= 0 ==> Covered(s))
  }

  lemma AddTimerKeepsTimerfdOk(s: State, a: Addr)
    requires Inv(s) && TimerfdOk(s)
    ensures TimerfdOk(AddTimerInLoop(s, a))
  {
  }

  lemma CancelKeepsTimerfdOk(s: State, id: TimerId)
    requires Inv(s) && TimerfdOk(s)
    ensures TimerfdOk(CancelTimerInLoop(s, id))
  {
  }

  lemma ResetOneKeepsTimerfdOk(s: State)
    requires Inv(s) && TimerfdOk(s)
    requires s.phase.Resetting? && s.phase.next < |s.phase.batch|
    ensures TimerfdOk(ResetOne(s))
  {
  }

  lemma FinishKeepsTimerfdOk(s: State)
    requires Inv(s) && TimerfdOk(s)
    ensures TimerfdOk(FinishReset(s))
  {
    if s.phase.Resetting? && s.timers != [] {
      assert s.timers[0] in s.timers && Names(s, s.timers[0]);
    }
  }

  lemma BeginReadKeepsTimerfdOk(s: State)
    requires Inv(s) && TimerfdOk(s)
    ensures TimerfdOk(BeginHandleRead(s))
  {
  }

  lemma StepKeepsTimerfdOk(s: State, e: Event)
    requires Inv(s) && TimerfdOk(s)
    ensures TimerfdOk(Step(s, e))
  {
    match e
    case Do(New(_, _, _, _)) =>
    case Do(Insert(a)) => AddTimerKeepsTimerfdOk(s, a);
    case Do(Cancel(id)) => CancelKeepsTimerfdOk(s, id);
    case Do(Tick(_)) =>
    case BeginRead => BeginReadKeepsTimerfdOk(s);
    case CallNext =>
    case EndCalls =>
    case ResetNext =>
      if s.phase.Resetting? && s.phase.next < |s.phase.batch| {
        ResetOneKeepsTimerfdOk(s);
      }
    case Finish => FinishKeepsTimerfdOk(s);
  }

  lemma {:induction false} NoTimerIsLost(s: State, es: seq<Event>)
    requires Inv(s) && TimerfdOk(s)
    ensures TimerfdOk(Run(s, es))
    ensures Run(s, es).phase.Idle? ==> Covered(Run(s, es))
    decreases |es|
  {
    if es != [] {
      StepKeeps(s, es[0]);
      StepKeepsTimerfdOk(s, es[0]);
      NoTimerIsLost(Step(s, es[0]), es[1..]);
    }
  }

  // ----- the uninitialised flag -----

  // Two queues that can differ in callingExpiredTimers_ and cancelingTimers_ only, and only before a handleRead.
  ghost predicate SameQueue(s: State, t: State) {
    s == t || (s.phase.Idle? && s.(calling := t.calling, canceling := t.canceling) == t)
  }

  lemma BeginReadForgets(s: State, t: State)
    requires SameQueue(s, t)
    ensures BeginHandleRead(s) == BeginHandleRead(t)
  {
  }

  lemma AddKeepsSame(s: State, t: State, a: Addr)
    requires SameQueue(s, t) && s != t
    ensures SameQueue(AddTimerInLoop(s, a), AddTimerInLoop(t, a))
  {
    assert At(s, a) == At(t, a);
    var s', t' := InsertTimer(s.(waiting := s.waiting - {a}), a), InsertTimer(t.(waiting := t.waiting - {a}), a);
    assert SameQueue(s', t');
    assert SameQueue(Arm(s', At(s', a).expiration), Arm(t', At(t', a).expiration));
  }

  lemma CancelKeepsSame(s: State, t: State, id: TimerId)
    requires SameQueue(s, t) && s != t
    ensures SameQueue(CancelTimerInLoop(s, id), CancelTimerInLoop(t, id))
  {
  }

  lemma StepKeepsSame(s: State, t: State, e: Event)
    requires SameQueue(s, t) && s != t
    ensures SameQueue(Step(s, e), Step(t, e))
    ensures e.BeginRead? ==> Step(s, e) == Step(t, e)
  {
    match e
    case Do(New(_, _, _, _)) =>
    case Do(Insert(a)) => AddKeepsSame(s, t, a);
    case Do(Cancel(id)) => CancelKeepsSame(s, t, id);
    case Do(Tick(_)) =>
    case BeginRead => BeginReadForgets(s, t);
    case CallNext =>
    case EndCalls =>
    case ResetNext =>
    case Finish =>
  }

  // The flag can matter only to what is cancelled before the first handleRead, and that is cleared then.
  lemma {:induction false} GarbageStaysHarmless(s: State, t: State, es: seq<Event>)
    requires SameQueue(s, t)
    ensures SameQueue(Run(s, es), Run(t, es))
    ensures BeginRead in es ==> Run(s, es) == Run(t, es)
    decreases |es|
  {
    if es != [] && s != t {
      StepKeepsSame(s, t, es[0]);
      GarbageStaysHarmless(Step(s, es[0]), Step(t, es[0]), es[1..]);
      assert es == [es[0]] + es[1..];
    }
  }

  /** Every run of a new queue, whatever callingExpiredTimers_ starts as, with a positive clock. */
  lemma EveryRun(garbage: bool, clock: int, es: seq<Event>)
    requires clock > 0
    ensures var s := Run(Start(garbage, clock), es);
            && Inv(s) && History(s) && TimerfdOk(s)
            && SameQueue(s, Run(Start(false, clock), es))
            && (BeginRead in es ==> s == Run(Start(false, clock), es))
  {
    var s := Start(garbage, clock);
    StartKeeps(garbage, clock);
    RunKeepsHistory(s, es);
    NoTimerIsLost(s, es);
    GarbageStaysHarmless(s, Start(false, clock), es);
  }
}
