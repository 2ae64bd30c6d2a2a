/**
 How far apart the calls of a repeating timer are: each one is due an interval after the
 moment at which the one before was made.
 */
module TimerQueuePeriods {
  import opened OrderedTimers
  import opened TimerQueueSpec
  import opened TimerQueueSafety
  import opened TimerQueueHistory

  // Line i is the last one of its timer.
  ghost predicate IsLast(log: seq<Fired>, i: int) {
    0 <= i < |log| && forall k :: i < k < |log| ==> log[k].id.sequence != log[i].id.sequence
  }

  // Line j is the next one of line i's timer.
  ghost predicate IsNext(log: seq<Fired>, i: int, j: int) {
    && 0 <= i < j < |log| && log[i].id.sequence == log[j].id.sequence
    && forall k :: i < k < j ==> log[k].id.sequence != log[i].id.sequence
  }

  ghost predicate Periodic(log: seq<Fired>) {
    forall i, j :: IsNext(log, i, j) ==> log[j].expiration == log[i].now + log[i].interval
  }

  function NowOf(phase: Phase): int {
    match phase
    case Idle => 0
    case Calling(_, _, now) => now
    case Resetting(_, _, now) => now
  }

  // What the last line of a live timer says: while it waits in the batch, which now it was called at; once it
  // is in timers_ again, when it is due.
  ghost predicate Scheduled(s: State, i: int, a: Addr)
    requires 0 <= i < |s.log| && a in s.heap
  {
    && s.log[i].interval == s.heap[a].interval
    && if Called(s, a) then s.log[i].now == NowOf(s.phase)
       else s.heap[a].expiration == s.log[i].now + s.log[i].interval
  }

  ghost predicate AllScheduled(s: State) {
    forall i, a :: IsLast(s.log, i) && a in s.heap && s.heap[a].sequence == s.log[i].id.sequence ==> Scheduled(s, i, a)
  }

  ghost predicate Periods(s: State) {
    Periodic(s.log) && AllScheduled(s)
  }

  // A step that makes no call and changes no timer that has been called.
  lemma FrameKeepsPeriods(s: State, t: State)
    requires NeverEarly(s) && Periods(s) && t.log == s.log
    requires forall a :: a in t.heap ==> (a in s.heap && t.heap[a] == s.heap[a]) || s.created < t.heap[a].sequence
    requires forall a :: a in s.heap && a in t.heap && t.heap[a] == s.heap[a] ==>
               (Called(t, a) <==> Called(s, a)) && (Called(t, a) ==> NowOf(t.phase) == NowOf(s.phase))
    ensures Periods(t)
  {
    forall i, a | IsLast(t.log, i) && a in t.heap && t.heap[a].sequence == t.log[i].id.sequence
      ensures Scheduled(t, i, a)
    {
      assert IsLast(s.log, i) && a in s.heap && t.heap[a] == s.heap[a];
      assert Scheduled(s, i, a);
    }
  }

  lemma ActKeepsPeriods(s: State, x: Action)
    requires NeverEarly(s) && Periods(s)
    ensures Periods(Act(s, x))
  {
    ActFrames(s, x);
    FrameKeepsPeriods(s, Act(s, x));
  }

  lemma BeginReadKeepsPeriods(s: State)
    requires NeverEarly(s) && Periods(s)
    ensures Periods(BeginHandleRead(s))
  {
    FrameKeepsPeriods(s, BeginHandleRead(s));
  }

  lemma EndCallingKeepsPeriods(s: State)
    requires NeverEarly(s) && Periods(s)
    requires s.phase.Calling? ==> s.phase.next <= |s.phase.batch|
    ensures Periods(EndCalling(s))
  {
    if s.phase.Calling? && s.phase.next == |s.phase.batch| {
      assert s.phase.batch[..s.phase.next] == s.phase.batch[0..];
    }
    FrameKeepsPeriods(s, EndCalling(s));
  }

  lemma FinishKeepsPeriods(s: State)
    requires NeverEarly(s) && Periods(s)
    ensures Periods(FinishReset(s))
  {
    FrameKeepsPeriods(s, FinishReset(s));
  }

  // A line at the end of the log is next after the last one of its timer, and leaves the others alone.
  lemma OneMoreLine(log: seq<Fired>, line: Fired, i: int, j: int)
    requires IsNext(log + [line], i, j)
    ensures if j < |log| then IsNext(log, i, j) else IsLast(log, i) && line.id.sequence == log[i].id.sequence
  {
    var longer := log + [line];
    assert forall k :: 0 <= k < |log| ==> longer[k] == log[k];
  }

  lemma LastWithoutTheLine(log: seq<Fired>, line: Fired, i: int)
    requires IsLast(log + [line], i) && i < |log|
    ensures IsLast(log, i) && line.id.sequence != log[i].id.sequence
  {
    var longer := log + [line];
    assert forall k :: 0 <= k < |log| ==> longer[k] == log[k];
    assert longer[|log|] == line;
  }

  lemma FireKeepsPeriodic(s: State)
    requires Inv(s) && History(s) && Periods(s) && s.phase.Calling? && s.phase.next < |s.phase.batch|
    ensures Periodic(Fire(s).log)
  {
    NextIsNotCalled(s);
    var a := s.phase.batch[s.phase.next].addr;
    var line := Line(s.heap[a], a, s.phase.now);
    forall i, j | IsNext(s.log + [line], i, j)
      ensures (s.log + [line])[j].expiration == (s.log + [line])[i].now + (s.log + [line])[i].interval
    {
      OneMoreLine(s.log, line, i, j);
      if j == |s.log| {
        assert Scheduled(s, i, a);
      }
    }
  }

  // The call makes the timer one that was called, and no other.
  lemma CalledAfterFire(s: State, b: Addr)
    requires s.phase.Calling? && s.phase.next < |s.phase.batch|
    requires b in s.heap && EntryAt(s, b) != s.phase.batch[s.phase.next]
    ensures Called(Fire(s), b) <==> Called(s, b)
  {
    var batch, n := s.phase.batch, s.phase.next;
    assert batch[..n + 1] == batch[..n] + [batch[n]];
    assert EntryAt(Fire(s), b) == EntryAt(s, b);
  }

  lemma OthersStayScheduled(s: State, i: int, b: Addr)
    requires Inv(s) && Periods(s) && s.phase.Calling? && s.phase.next < |s.phase.batch|
    requires var t := Fire(s);
             0 <= i < |s.log| && IsLast(t.log, i) && b in s.heap && s.heap[b].sequence == t.log[i].id.sequence
    ensures Scheduled(Fire(s), i, b)
  {
    var e := s.phase.batch[s.phase.next];
    assert e in Batch(s) && Names(s, e);
    LastWithoutTheLine(s.log, Line(s.heap[e.addr], e.addr, s.phase.now), i);
    assert Scheduled(s, i, b);
    CalledAfterFire(s, b);
  }

  lemma FireKeepsScheduled(s: State)
    requires Inv(s) && Periods(s) && s.phase.Calling? && s.phase.next < |s.phase.batch|
    ensures AllScheduled(Fire(s))
  {
    var t, batch, n := Fire(s), s.phase.batch, s.phase.next;
    assert batch[n] in Batch(s) && Names(s, batch[n]);
    forall i, b | IsLast(t.log, i) && b in t.heap && t.heap[b].sequence == t.log[i].id.sequence
      ensures Scheduled(t, i, b)
    {
      if i == |s.log| {
        assert b == batch[n].addr && batch[..n + 1][n] == EntryAt(t, b);
      } else {
        OthersStayScheduled(s, i, b);
      }
    }
  }

  lemma FireKeepsPeriods(s: State)
    requires Inv(s) && History(s) && Periods(s)
    ensures Periods(Fire(s))
  {
    if s.phase.Calling? && s.phase.next < |s.phase.batch| {
      FireKeepsPeriodic(s);
      FireKeepsScheduled(s);
    }
  }

  // The timer that reset looks at: it was called at this now, and is due an interval later.
  lemma ResetOneKeepsPeriods(s: State)
    requires Inv(s) && Periods(s) && s.phase.Resetting? && s.phase.next < |s.phase.batch|
    ensures Periods(ResetOne(s))
  {
    BatchHead(s);
    ResetOneFrames(s);
    var t, batch, n := ResetOne(s), s.phase.batch, s.phase.next;
    var e := batch[n];
    assert batch[n..] == [e] + batch[n + 1..];
    forall i, b | IsLast(t.log, i) && b in t.heap && t.heap[b].sequence == t.log[i].id.sequence
      ensures Scheduled(t, i, b)
    {
      assert IsLast(s.log, i) && b in s.heap && Scheduled(s, i, b);
      if b == e.addr {
        assert EntryAt(s, b) == e && Called(s, b);
        assert EntryAt(t, b) !in batch[n + 1..];
      } else {
        assert EntryAt(t, b) == EntryAt(s, b) != e;
      }
    }
  }

  lemma StepKeepsPeriods(s: State, e: Event)
    requires Inv(s) && History(s) && Periods(s)
    ensures Periods(Step(s, e))
  {
    match e
    case Do(x) => ActKeepsPeriods(s, x);
    case BeginRead => BeginReadKeepsPeriods(s);
    case CallNext => FireKeepsPeriods(s);
    case EndCalls => EndCallingKeepsPeriods(s);
    case ResetNext =>
      if s.phase.Resetting? && s.phase.next < |s.phase.batch| {
        ResetOneKeepsPeriods(s);
      }
    case Finish => FinishKeepsPeriods(s);
  }

  lemma {:induction false} RunKeepsPeriods(s: State, es: seq<Event>)
    requires Inv(s) && History(s) && Periods(s)
    ensures Periods(Run(s, es))
    decreases |es|
  {
    if es != [] {
      StepKeeps(s, es[0]);
      StepKeepsHistory(s, es[0]);
      StepKeepsPeriods(s, es[0]);
      RunKeepsPeriods(Step(s, es[0]), es[1..]);
    }
  }

  /** In every run of a new queue, of two consecutive calls of one timer the later was due exactly an interval
      after the earlier was made, and so was not made before that. */
  lemma CallsAreSpaced(garbage: bool, clock: int, es: seq<Event>, i: int, j: int)
    requires IsNext(Run(Start(garbage, clock), es).log, i, j)
    ensures var log := Run(Start(garbage, clock), es).log;
            && log[j].expiration == log[i].now + log[i].interval
            && log[j].now >= log[i].now + log[i].interval
  {
    var s := Start(garbage, clock);
    StartKeeps(garbage, clock);
    RunKeepsHistory(s, es);
    RunKeepsPeriods(s, es);
  }
}
