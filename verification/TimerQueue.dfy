/**
 timerqueue.cc as code: the fields a TimerQueue updates in place, and methods with the
 loops of the source. Every method is tied to the state machine of TimerQueueSpec, and
 every use of a Timer* below carries the obligation that the timer is alive.
 */
module TimerQueue {
  import opened OrderedTimers
  import opened Scripts
  import opened S = TimerQueueSpec
  import opened TimerQueueSafety
  import opened TimerQueueHistory
  import opened TimerQueueProgress

  // ----- the events that one handleRead() makes -----

  function Acts(script: seq<Action>): seq<Event> {
    if script == [] then [] else Acts(script[..|script| - 1]) + [Do(script[|script| - 1])]
  }

  function Calls(scripts: seq<seq<Action>>, n: nat): seq<Event> {
    if n == 0 then [] else Calls(scripts, n - 1) + ([CallNext] + Acts(ScriptOf(scripts, n - 1)))
  }

  function Resets(n: nat): seq<Event> {
    if n == 0 then [] else Resets(n - 1) + [ResetNext]
  }

  // n timers are due; the i-th callback does scripts[i], or nothing.
  function ReadEvents(scripts: seq<seq<Action>>, n: nat): seq<Event> {
    [BeginRead] + Calls(scripts, n) + [EndCalls] + (Resets(n) + [Finish])
  }

  // A log line for the callback of this entry.
  ghost predicate Shows(f: Fired, e: Entry, now: int) {
    f.id.addr == e.addr && f.expiration == e.when && f.now == now
  }

  // One line for each entry, in order, after what was logged before.
  ghost predicate ShowsAll(before: seq<Fired>, after: seq<Fired>, batch: seq<Entry>, now: int) {
    && |after| == |before| + |batch| && before <= after
    && forall k :: 0 <= k < |batch| ==> Shows(after[|before| + k], batch[k], now)
  }

  lemma ShowsOneMore(before: seq<Fired>, middle: seq<Fired>, after: seq<Fired>, batch: seq<Entry>, i: nat, now: int)
    requires i < |batch| && ShowsAll(before, middle, batch[..i], now)
    requires |after| == |middle| + 1 && after[..|middle|] == middle && Shows(after[|middle|], batch[i], now)
    ensures ShowsAll(before, after, batch[..i + 1], now)
  {
    assert forall k :: 0 <= k < |middle| ==> after[k] == middle[k];
  }

  class TimerQueue {
    var timers: seq<Entry>
    var activeTimers: set<TimerId>
    var callingExpiredTimers: bool
    var cancelingTimers: set<TimerId>
    var heap: map<Addr, Timer>
    var numCreated: nat
    var timerfd: Timerfd
    var clock: int
    var waiting: set<Addr>
    ghost var phase: Phase
    ghost var log: seq<Fired>

    ghost function Model(): State
      reads this
    {
      State(timers, activeTimers, callingExpiredTimers, cancelingTimers, heap, numCreated,
                  timerfd, clock, waiting, phase, log, false)
    }

    ghost predicate Valid()
      reads this
    {
      Inv(Model())
    }

    constructor (garbage: bool, now: int)
      ensures Model() == Start(garbage, now)
      ensures Valid()
    {
      timers, activeTimers, cancelingTimers := [], {}, {};
      callingExpiredTimers := garbage;
      heap, numCreated, timerfd, clock, waiting := map[], 0, Disarmed, now, {};
      phase, log := Idle, [];
    }

    // new Timer(...), in any thread; addTimerInLoop is queued. The allocator never returns a live address.
    method AddTimer(a: Addr, when: int, repeat: bool, interval: nat)
      requires Valid()
      modifies this
      ensures Model() == NewTimer(old(Model()), a, when, repeat, interval)
      ensures Valid()
    {
      ghost var s := Model();
      NewTimerKeeps(s, a, when, repeat, interval);
      if a !in heap {
        numCreated := numCreated + 1;
        heap := heap[a := Timer(when, repeat, interval, numCreated)];
        waiting := waiting + {a};
      }
      assert Model() == NewTimer(s, a, when, repeat, interval);
    }

    method ResetTimerfd(when: int)
      modifies this`timerfd
      ensures Model() == Arm(old(Model()), when)
    {
      var microseconds := when - clock;
      if microseconds < 100 {
        microseconds := 100;
      }
      timerfd := Armed(clock + microseconds, clock);
    }

    method Insert(a: Addr) returns (earliestChanged: bool)
      requires a in heap
      modifies this`timers, this`activeTimers
      ensures Model() == InsertTimer(old(Model()), a)
      ensures earliestChanged == EarliestChanged(old(Model()), a)
    {
      var when := heap[a].expiration;
      earliestChanged := timers == [] || when < timers[0].when;
      timers := Add(timers, Entry(when, a));
      activeTimers := activeTimers + {TimerId(a, heap[a].sequence)};
    }

    method AddTimerInLoop(a: Addr)
      requires Valid() && !phase.Resetting? && a in waiting
      modifies this
      ensures Model() == S.AddTimerInLoop(old(Model()), a)
      ensures Valid()
    {
      AddTimerKeeps(Model(), a);
      waiting := waiting - {a};
      var earliestChanged := Insert(a);
      if earliestChanged {
        ResetTimerfd(heap[a].expiration);
      }
    }

    method CancelTimerInLoop(id: TimerId)
      requires Valid() && !phase.Resetting?
      modifies this
      ensures Model() == S.CancelTimerInLoop(old(Model()), id)
      ensures Valid()
    {
      CancelKeeps(Model(), id);
      if id in activeTimers {
        var entry := Entry(heap[id.addr].expiration, id.addr);
        assert entry in timers;
        timers := Erase(timers, entry);
        heap := heap - {id.addr};
        activeTimers := activeTimers - {id};
      } else if callingExpiredTimers {
        cancelingTimers := cancelingTimers + {id};
      }
    }

    method Perform(x: Action)
      requires Valid() && !phase.Resetting?
      modifies this
      ensures Model() == Act(old(Model()), x)
      ensures Valid()
    {
      match x
      case New(a, when, repeat, interval) => AddTimer(a, when, repeat, interval);
      case Insert(a) => if a in waiting { AddTimerInLoop(a); }
      case Cancel(id) => CancelTimerInLoop(id);
      case Tick(elapsed) => clock := clock + elapsed;
    }

    method PerformAll(script: seq<Action>)
      requires Valid() && phase.Calling?
      modifies this
      ensures Model() == Run(old(Model()), Acts(script))
      ensures phase == old(phase) && log == old(log)
    {
      ghost var s := Model();
      for i := 0 to |script|
        invariant Model() == Run(s, Acts(script[..i]))
        invariant phase == s.phase && log == s.log
      {
        assert Valid() by { RunKeeps(s, Acts(script[..i])); }
        assert script[..i + 1][..i] == script[..i];
        assert Frame(Model(), Act(Model(), script[i])) by { ActFrames(Model(), script[i]); }
        RunLast(s, Acts(script[..i]), Do(script[i]));
        Perform(script[i]);
      }
      assert script[..|script|] == script;
    }

    // The due timers leave both sets; each of them is looked up through its pointer.
    method GetExpired(now: int) returns (expired: seq<Entry>)
      requires forall e :: e in timers ==> e.addr in heap
      modifies this`timers, this`activeTimers
      ensures expired == old(timers)[..LowerBound(old(timers), Sentry(now))]
      ensures timers == old(timers)[LowerBound(old(timers), Sentry(now))..]
      ensures activeTimers == old(activeTimers) - IdsOf(old(Model()), expired)
    {
      ghost var s := Model();
      var k := LowerBound(timers, Sentry(now));
      expired := timers[..k];
      timers := timers[k..];
      for i := 0 to |expired|
        invariant timers == s.timers[k..]
        invariant activeTimers == s.active - IdsOf(s, expired[..i])
      {
        assert expired[i] in s.timers;
        var timer := TimerId(expired[i].addr, heap[expired[i].addr].sequence);
        activeTimers := activeTimers - {timer};
        IdsOfOneMore(s, expired, i);
      }
      assert expired[..|expired|] == expired;
    }

    // The body of reset's loop: re-insert a timer that repeats and was not cancelled, delete any other.
    method RestartOrDelete(entry: Entry, now: int)
      requires phase.Resetting? && now == phase.now
      requires phase.next < |phase.batch| && entry == phase.batch[phase.next] && entry.addr in heap
      modifies this
      ensures Model() == ResetOne(old(Model()))
    {
      var a := entry.addr;
      var timer := TimerId(a, heap[a].sequence);
      phase := Resetting(phase.batch, phase.next + 1, now);
      if heap[a].repeat && timer !in cancelingTimers {
        heap := heap[a := heap[a].(expiration := now + heap[a].interval)];
        var _ := Insert(a);
      } else {
        heap := heap - {a};
      }
    }

    // The end of reset: arm the timerfd for the earliest timer if its expiration is a valid time.
    method ArmForNext()
      requires phase.Resetting? && phase.next == |phase.batch|
      requires timers != [] ==> timers[0].addr in heap
      modifies this
      ensures Model() == FinishReset(old(Model()))
    {
      phase := Idle;
      if timers != [] {
        var nextExpire := heap[timers[0].addr].expiration;
        if nextExpire > 0 {
          ResetTimerfd(nextExpire);
        }
      }
    }

    method Reset(expired: seq<Entry>, now: int)
      requires Valid() && phase == Resetting(expired, 0, now)
      modifies this
      ensures Model() == Run(old(Model()), Resets(|expired|) + [Finish])
      ensures phase.Idle? && log == old(log)
    {
      ghost var s := Model();
      for i := 0 to |expired|
        invariant Model() == Run(s, Resets(i))
        invariant phase == Resetting(expired, i, now) && log == s.log
      {
        NextIsAlive(s, Resets(i));
        RunLast(s, Resets(i), ResetNext);
        RestartOrDelete(expired[i], now);
      }
      FirstIsAlive(s, Resets(|expired|));
      RunLast(s, Resets(|expired|), Finish);
      ArmForNext();
    }

    method ReadAndGetExpired() returns (expired: seq<Entry>, now: int)
      requires phase.Idle? && Ordered(timers)
      requires forall e :: e in timers ==> e.addr in heap && IdAt(Model(), e.addr) in activeTimers
      modifies this
      ensures Model() == BeginHandleRead(old(Model()))
      ensures now == clock && phase == Calling(expired, 0, now)
    {
      DueAreAlive(Model());
      now := clock;
      timerfd := ReadFd(timerfd, now);
      expired := GetExpired(now);
      callingExpiredTimers := true;
      cancelingTimers := {};
      phase := Calling(expired, 0, now);
    }

    // iter->second->run(): the callback of a due timer, which does its script.
    method RunCallback(entry: Entry, script: seq<Action>, ghost start: State, ghost es: seq<Event>)
      requires Inv(start) && Model() == Run(start, es)
      requires phase.Calling? && phase.next < |phase.batch| && entry == phase.batch[phase.next]
      modifies this
      ensures Model() == Run(start, es + ([CallNext] + Acts(script)))
      ensures phase == Calling(old(phase.batch), old(phase.next) + 1, old(phase.now))
      ensures |log| == |old(log)| + 1 && log[..|old(log)|] == old(log) && Shows(log[|old(log)|], entry, old(phase.now))
    {
      ghost var s := Model();
      RunKeeps(start, es);
      assert Inv(Fire(s)) by { FireKeeps(s); }
      assert entry.addr in heap && heap[entry.addr].expiration == entry.when by {
        assert entry in Batch(s) && Names(s, entry);
      }
      var timer := heap[entry.addr];
      log := log + [Line(timer, entry.addr, phase.now)];
      phase := Calling(phase.batch, phase.next + 1, phase.now);
      assert Model() == Step(s, CallNext);
      PerformAll(script);
      assert ([CallNext] + Acts(script))[1..] == Acts(script);
      RunConcat(start, es, [CallNext] + Acts(script));
    }

    // One turn of handleRead's loop.
    method CallOne(expired: seq<Entry>, i: nat, now: int, script: seq<Action>, ghost start: State, ghost es: seq<Event>)
      requires Inv(start) && Model() == Run(start, es)
      requires i < |expired| && phase == Calling(expired, i, now) && ShowsAll(start.log, log, expired[..i], now)
      modifies this
      ensures Model() == Run(start, es + ([CallNext] + Acts(script)))
      ensures phase == Calling(expired, i + 1, now) && ShowsAll(start.log, log, expired[..i + 1], now)
    {
      ghost var before := log;
      RunCallback(expired[i], script, start, es);
      ShowsOneMore(start.log, before, log, expired, i, now);
    }

    // The loop of handleRead.
    method CallExpired(expired: seq<Entry>, now: int, scripts: seq<seq<Action>>)
      requires Valid() && phase == Calling(expired, 0, now)
      modifies this
      ensures Model() == Run(old(Model()), Calls(scripts, |expired|) + [EndCalls])
      ensures phase == Resetting(expired, 0, now)
      ensures ShowsAll(old(log), log, expired, now)
    {
      ghost var s := Model();
      for i := 0 to |expired|
        invariant Model() == Run(s, Calls(scripts, i))
        invariant phase == Calling(expired, i, now)
        invariant ShowsAll(s.log, log, expired[..i], now)
      {
        CallOne(expired, i, now, ScriptOf(scripts, i), s, Calls(scripts, i));
      }
      assert expired[..|expired|] == expired;
      RunLast(s, Calls(scripts, |expired|), EndCalls);
      callingExpiredTimers := false;
      phase := Resetting(expired, 0, now);
    }

    method HandleRead(scripts: seq<seq<Action>>) returns (expired: seq<Entry>)
      requires Valid() && phase.Idle?
      modifies this
      ensures Model() == Run(old(Model()), ReadEvents(scripts, |expired|))
      ensures expired == BeginHandleRead(old(Model())).phase.batch
      ensures ShowsAll(old(log), log, expired, old(clock))
      ensures forall id :: id in old(activeTimers) && old(heap)[id.addr].repeat && NoCancel(scripts, id) ==> Pending(Model(), id)
      ensures Valid() && phase.Idle?
    {
      ghost var s := Model();
      FiledAreAlive(s);
      var now;
      expired, now := ReadAndGetExpired();
      ghost var t := Model();
      assert Valid() by { BeginReadKeeps(s); }
      CallExpired(expired, now, scripts);
      assert Valid() by { RunKeeps(t, Calls(scripts, |expired|) + [EndCalls]); }
      Reset(expired, now);
      ReadInThreeParts(s, scripts, |expired|);
      assert Valid() by { RunKeeps(s, ReadEvents(scripts, |expired|)); }
      forall id | id in s.active && s.heap[id.addr].repeat && NoCancel(scripts, id) ensures Pending(Model(), id) {
        RepeatingStay(s, scripts, |expired|, id);
      }
    }
  }

  // No callback cancels this timer.
  ghost predicate NoCancel(scripts: seq<seq<Action>>, id: TimerId) {
    forall i :: 0 <= i < |scripts| ==> Cancel(id) !in scripts[i]
  }

  lemma NoCancelInActs(script: seq<Action>, id: TimerId)
    requires Cancel(id) !in script
    ensures Do(Cancel(id)) !in Acts(script)
  {
    if script != [] {
      assert script[|script| - 1] in script && forall x :: x in script[..|script| - 1] ==> x in script;
      NoCancelInActs(script[..|script| - 1], id);
    }
  }

  lemma NoCancelInCalls(scripts: seq<seq<Action>>, n: nat, id: TimerId)
    requires NoCancel(scripts, id)
    ensures Do(Cancel(id)) !in Calls(scripts, n)
  {
    if n > 0 {
      NoCancelInCalls(scripts, n - 1, id);
      NoCancelInActs(ScriptOf(scripts, n - 1), id);
    }
  }

  lemma NoCancelInResets(n: nat, id: TimerId)
    ensures Do(Cancel(id)) !in Resets(n)
  {
    if n > 0 {
      NoCancelInResets(n - 1, id);
    }
  }

  /** A repeating timer that no callback cancels is pending again after handleRead, due or not. */
  lemma RepeatingStay(s: State, scripts: seq<seq<Action>>, n: nat, id: TimerId)
    requires Inv(s) && s.phase.Idle? && id in s.active && s.heap[id.addr].repeat && NoCancel(scripts, id)
    requires Run(s, ReadEvents(scripts, n)).phase.Idle?
    ensures Pending(Run(s, ReadEvents(scripts, n)), id)
  {
    var t := Step(s, BeginRead);
    var calls, resets := Calls(scripts, n) + [EndCalls], Resets(n) + [Finish];
    StepKeeps(s, BeginRead);
    StepKeepsCalledLogged(s, BeginRead);
    NoCancelInCalls(scripts, n, id);
    NoCancelInResets(n, id);
    ReadInThreeParts(s, scripts, n);
    RunConcat(t, calls, resets);
    NoTimerIsForgotten(t, calls + resets, id);
    RunForgetsNoTimer(t, calls + resets, id, true);
  }

  // What reset looks at is alive.
  lemma NextIsAlive(s: State, es: seq<Event>)
    requires Inv(s) && Run(s, es).phase.Resetting? && Run(s, es).phase.next < |Run(s, es).phase.batch|
    ensures var t := Run(s, es); t.phase.batch[t.phase.next].addr in t.heap
  {
    RunKeeps(s, es);
    BatchHead(Run(s, es));
  }

  lemma FirstIsAlive(s: State, es: seq<Event>)
    requires Inv(s)
    ensures var t := Run(s, es); t.timers != [] ==> t.timers[0].addr in t.heap
  {
    RunKeeps(s, es);
    var t := Run(s, es);
    assert t.timers != [] ==> t.timers[0] in t.timers;
  }

  lemma IdsOfOneMore(s: State, expired: seq<Entry>, i: nat)
    requires i < |expired|
    ensures IdsOf(s, expired[..i + 1]) == IdsOf(s, expired[..i]) + {IdAt(s, expired[i].addr)}
  {
    assert expired[..i + 1] == expired[..i] + [expired[i]];
  }

  lemma FiledAreAlive(s: State)
    requires Inv(s)
    ensures forall e :: e in s.timers ==> e.addr in s.heap && IdAt(s, e.addr) in s.active
  {
    assert forall e :: e in s.timers ==> EntryAt(s, e.addr) == e;
  }

  // Nothing is dangling when getExpired runs, if every timer in timers_ is alive and active.
  lemma DueAreAlive(s: State)
    requires s.phase.Idle? && Ordered(s.timers) && !s.fault
    requires forall e :: e in s.timers ==> e.addr in s.heap && IdAt(s, e.addr) in s.active
    ensures !BeginHandleRead(s).fault
  {
    var k := LowerBound(s.timers, Sentry(s.clock));
    assert k < |s.timers| ==> s.timers[k] in s.timers;
    assert forall e :: e in s.timers[..k] ==> e in s.timers;
  }

  lemma ReadInThreeParts(s: State, scripts: seq<seq<Action>>, n: nat)
    ensures Run(s, ReadEvents(scripts, n)) ==
            Run(Run(Step(s, BeginRead), Calls(scripts, n) + [EndCalls]), Resets(n) + [Finish])
  {
    var calls, resets := Calls(scripts, n) + [EndCalls], Resets(n) + [Finish];
    assert ReadEvents(scripts, n) == [BeginRead] + (calls + resets);
    assert ([BeginRead] + (calls + resets))[1..] == calls + resets;
    RunConcat(Step(s, BeginRead), calls, resets);
  }
}
