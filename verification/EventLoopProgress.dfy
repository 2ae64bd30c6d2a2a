/**
 What the loop does for its users, over every interleaving: nothing is queued but what was
 pushed, the eventfd counts the wakeups since it was drained, and a round runs what waits.
 */
module EventLoopProgress {
  import opened EventLoopSpec

  // ----- what is queued -----

  // The functor that an event brings, if it takes effect.
  function BroughtBy(s: State, e: Event): seq<Functor> {
    match e
    case By(Push(t, f)) => if t in s.midway then [] else [f]
    case OwnPush(f) => if InUserCode(s) then [f] else []
    case _ => []
  }

  function AllBrought(s: State, es: seq<Event>): seq<Functor>
    decreases |es|
  {
    if es == [] then [] else BroughtBy(s, es[0]) + AllBrought(Step(s, es[0]), es[1..])
  }

  lemma StepQueuesWhatIsBrought(s: State, e: Event)
    ensures Step(s, e).pushed == s.pushed + BroughtBy(s, e)
  {
  }

  lemma {:induction false} PushedIsWhatWasBrought(s: State, es: seq<Event>)
    ensures Run(s, es).pushed == s.pushed + AllBrought(s, es)
    decreases |es|
  {
    if es != [] {
      StepQueuesWhatIsBrought(s, es[0]);
      PushedIsWhatWasBrought(Step(s, es[0]), es[1..]);
    }
  }

  /** Every functor that was brought runs once and in that order: what has run, then what has not, is what
      was brought, and nothing else. */
  lemma RunInOrderBrought(es: seq<Event>)
    ensures var s := Run(START, es);
            var rest := if s.pc.Running? && s.pc.next <= |s.batch| then s.batch[s.pc.next..] else [];
            s.executed + rest + s.pending == AllBrought(START, es)
  {
    RunInPushOrder(es);
    PushedIsWhatWasBrought(START, es);
    assert START.pushed + AllBrought(START, es) == AllBrought(START, es);
  }

  /** The loop thread can queue functors and quit wherever it runs code of its users: outside loop(), in event
      handlers and in functors. */
  lemma UserCodeQueuesAndQuits(s: State, f: Functor)
    requires s.pc.Outside? || s.pc.Handling? || (s.pc.Running? && !s.pc.kicking)
    ensures Step(s, OwnPush(f)).pending == s.pending + [f] && Step(s, OwnQuit).quit
  {
  }

  // ----- who is about to wake the loop -----

  predicate BeginsWork(e: Event, t: Thread) {
    e == By(Quit(t)) || (e.By? && e.other.Push? && e.other.thread == t)
  }

  // Event i is a push or quit by t, and t has not called wakeup() since.
  ghost predicate StillToWake(es: seq<Event>, i: int, t: Thread) {
    0 <= i < |es| && BeginsWork(es[i], t) && forall j :: i < j < |es| ==> es[j] != By(Wake(t))
  }

  lemma MidwayAfterStep(s: State, e: Event, t: Thread)
    ensures t in Step(s, e).midway <==> BeginsWork(e, t) || (t in s.midway && e != By(Wake(t)))
  {
  }

  lemma StillToWakeOneMore(es: seq<Event>, e: Event, i: int, t: Thread)
    requires 0 <= i < |es|
    ensures StillToWake(es + [e], i, t) <==> StillToWake(es, i, t) && e != By(Wake(t))
  {
    var fs := es + [e];
    assert fs[|es|] == e && forall j :: 0 <= j < |es| ==> fs[j] == es[j];
    if StillToWake(es, i, t) && e != By(Wake(t)) {
      forall j | i < j < |fs| ensures fs[j] != By(Wake(t)) {
        assert j < |es| ==> fs[j] == es[j];
      }
    }
    if StillToWake(fs, i, t) {
      forall j | i < j < |es| ensures es[j] != By(Wake(t)) {
        assert fs[j] != By(Wake(t));
      }
    }
  }

  /** A thread counts as about to wake the loop exactly between its push or quit and its wakeup(). */
  lemma {:induction false} MidwayExactly(es: seq<Event>, t: Thread)
    ensures t in Run(START, es).midway <==> exists i :: StillToWake(es, i, t)
    decreases |es|
  {
    if es != [] {
      var n := |es| - 1;
      var fs, e := es[..n], es[n];
      assert es == fs + [e];
      RunLast(START, fs, e);
      MidwayAfterStep(Run(START, fs), e, t);
      MidwayExactly(fs, t);
      forall i | 0 <= i < n ensures StillToWake(es, i, t) <==> StillToWake(fs, i, t) && e != By(Wake(t)) {
        StillToWakeOneMore(fs, e, i, t);
      }
      assert StillToWake(es, n, t) <==> BeginsWork(e, t);
    }
  }

  // Event i is a push by the loop thread outside loop(), and the queue was not swapped out since.
  ghost predicate StillEarly(es: seq<Event>, i: int) {
    && 0 <= i < |es| && es[i].OwnPush? && Run(START, es[..i]).pc.Outside?
    && forall j :: i < j < |es| ==> !(es[j].Swap? && Run(START, es[..j]).pc.Entering?)
  }

  lemma EarlyAfterStep(s: State, e: Event)
    ensures Step(s, e).early <==>
              (e.OwnPush? && s.pc.Outside?) || (s.early && !(e.Swap? && s.pc.Entering?))
  {
  }

  lemma StillEarlyOneMore(es: seq<Event>, e: Event, i: int)
    requires 0 <= i < |es|
    ensures StillEarly(es + [e], i) <==> StillEarly(es, i) && !(e.Swap? && Run(START, es).pc.Entering?)
  {
    var fs := es + [e];
    assert fs[..|es|] == es && forall j :: 0 <= j < |es| ==> fs[..j] == es[..j] && fs[j] == es[j];
    if StillEarly(fs, i) {
      assert !(fs[|es|].Swap? && Run(START, fs[..|es|]).pc.Entering?);
      forall j | i < j < |es| ensures !(es[j].Swap? && Run(START, es[..j]).pc.Entering?) {
        assert !(fs[j].Swap? && Run(START, fs[..j]).pc.Entering?);
      }
    }
    if StillEarly(es, i) && !(e.Swap? && Run(START, es).pc.Entering?) {
      forall j | i < j < |fs| ensures !(fs[j].Swap? && Run(START, fs[..j]).pc.Entering?) {
        assert j < |es| ==> fs[..j] == es[..j] && fs[j] == es[j];
      }
    }
  }

  /** The exception in NoLostWakeup holds exactly from such a push to the first swap after it. */
  lemma {:induction false} EarlyExactly(es: seq<Event>)
    ensures Run(START, es).early <==> exists i :: StillEarly(es, i)
    decreases |es|
  {
    if es != [] {
      var n := |es| - 1;
      var fs, e := es[..n], es[n];
      assert es == fs + [e];
      RunLast(START, fs, e);
      EarlyAfterStep(Run(START, fs), e);
      EarlyExactly(fs);
      forall i | 0 <= i < n
        ensures StillEarly(es, i) <==> StillEarly(fs, i) && !(e.Swap? && Run(START, fs).pc.Entering?)
      {
        StillEarlyOneMore(fs, e, i);
      }
      assert StillEarly(es, n) <==> e.OwnPush? && Run(START, fs).pc.Outside?;
    }
  }

  // ----- the eventfd -----

  predicate Kicks(s: State, e: Event) {
    match e
    case By(Wake(t)) => t in s.midway
    case OwnWake => s.pc.Running? && s.pc.kicking
    case _ => false
  }

  predicate Drains(s: State, e: Event) {
    e.Drain? && s.pc == Handling(true)
  }

  // The wakeups since the last drain, when there were n before.
  function WakeupsSinceDrain(s: State, es: seq<Event>, n: nat): nat
    decreases |es|
  {
    if es == [] then n
    else WakeupsSinceDrain(Step(s, es[0]), es[1..], if Drains(s, es[0]) then 0 else if Kicks(s, es[0]) then n + 1 else n)
  }

  function Capped(n: nat): nat { if n < EVENTFD_MAX then n else EVENTFD_MAX }

  lemma CounterAfterStep(s: State, e: Event)
    ensures Step(s, e).eventfd ==
              if Drains(s, e) then 0
              else if Kicks(s, e) && s.eventfd < EVENTFD_MAX then s.eventfd + 1
              else s.eventfd
  {
  }

  /** The eventfd counts the wakeups since it was last drained, as far as it can count. */
  lemma {:induction false} EventfdCountsWakeups(s: State, es: seq<Event>, n: nat)
    requires s.eventfd == Capped(n)
    ensures Run(s, es).eventfd == Capped(WakeupsSinceDrain(s, es, n))
    decreases |es|
  {
    if es != [] {
      var m := if Drains(s, es[0]) then 0 else if Kicks(s, es[0]) then n + 1 else n;
      CounterAfterStep(s, es[0]);
      EventfdCountsWakeups(Step(s, es[0]), es[1..], m);
    }
  }

  predicate NoKicks(s: State, es: seq<Event>)
    decreases |es|
  {
    es == [] || (!Kicks(s, es[0]) && NoKicks(Step(s, es[0]), es[1..]))
  }

  /** Once it is drained, poll() reports it again only after another wakeup. */
  lemma {:induction false} DrainedStaysDrained(s: State, es: seq<Event>)
    requires s.eventfd == 0 && NoKicks(s, es)
    ensures Run(s, es).eventfd == 0
    decreases |es|
  {
    if es != [] {
      CounterAfterStep(s, es[0]);
      DrainedStaysDrained(Step(s, es[0]), es[1..]);
    }
  }

  // ----- one round -----

  function RunAll(n: nat): seq<Event> {
    if n == 0 then [] else RunAll(n - 1) + [RunNext]
  }

  lemma {:induction false} RunAllRuns(s: State, n: nat)
    requires s.pc == Running(0, false) && n <= |s.batch|
    ensures Run(s, RunAll(n)) == s.(pc := Running(n, false), executed := s.executed + s.batch[..n])
    decreases n
  {
    if n == 0 {
      assert s.batch[..0] == [] && s.executed + [] == s.executed;
    } else {
      RunAllRuns(s, n - 1);
      RunLast(s, RunAll(n - 1), RunNext);
      assert s.batch[..n] == s.batch[..n - 1] + [s.batch[n - 1]];
      assert s.executed + s.batch[..n - 1] + [s.batch[n - 1]] == s.executed + s.batch[..n];
    }
  }

  lemma RunTwo(s: State, e: Event, f: Event)
    ensures Run(s, [e, f]) == Step(Step(s, e), f)
  {
    assert [e, f] == [] + [e] + [f];
    RunLast(s, [] + [e], f);
    RunLast(s, [], e);
  }

  // poll() returns, and the eventfd is drained if poll() reported it.
  function Poll(woken: bool): seq<Event> {
    [Test, PollReturns(woken)] + if woken then [Drain] else []
  }

  lemma PollDrains(s: State)
    requires s.pc.Testing? && !s.quit
    ensures Run(s, Poll(s.eventfd > 0)) == s.(pc := Handling(false), eventfd := 0)
  {
    RunTwo(s, Test, PollReturns(s.eventfd > 0));
    if s.eventfd > 0 {
      RunLast(s, [Test, PollReturns(true)], Drain);
    } else {
      assert Poll(false) == [Test, PollReturns(false)];
    }
  }

  // Then the queue is swapped out.
  function UpToSwap(woken: bool): seq<Event> {
    Poll(woken) + [Enter, Swap]
  }

  lemma UpToSwapSwaps(s: State)
    requires s.pc.Testing? && !s.quit
    ensures var t := Run(s, UpToSwap(s.eventfd > 0));
            && t.pc == Running(0, false) && t.batch == s.pending && t.pending == [] && t.eventfd == 0
            && t.executed == s.executed && t.calling && t.looping == s.looping
  {
    var u := s.(pc := Handling(false), eventfd := 0);
    PollDrains(s);
    RunConcat(s, Poll(s.eventfd > 0), [Enter, Swap]);
    RunTwo(u, Enter, Swap);
  }

  /** A round in which nobody interferes runs everything that waits, leaves the eventfd drained and comes back
      to the test. */
  lemma RoundRunsAll(s: State)
    requires s.pc.Testing? && !s.quit
    ensures var t := Run(s, UpToSwap(s.eventfd > 0) + RunAll(|s.pending|) + [Leave]);
            && t.pc.Testing? && t.executed == s.executed + s.pending && t.pending == [] && t.eventfd == 0
            && !t.calling && t.looping == s.looping
  {
    var es, u := UpToSwap(s.eventfd > 0), Run(s, UpToSwap(s.eventfd > 0));
    UpToSwapSwaps(s);
    RunAllRuns(u, |u.batch|);
    RunConcat(s, es, RunAll(|s.pending|));
    RunLast(s, es + RunAll(|s.pending|), Leave);
    assert u.batch[..|u.batch|] == s.pending;
  }

  /** loop() runs rounds until it tests a set quit_, and then it ends. */
  lemma LoopRunsUntilQuit(s: State)
    ensures s.pc.Outside? ==> Step(s, Loop).pc.Testing? && Step(s, Loop).looping && !Step(s, Loop).quit
    ensures s.pc.Testing? && s.quit ==> Step(s, Test).pc.Outside? && !Step(s, Test).looping
    ensures s.pc.Testing? && !s.quit ==> Step(s, Test).pc.Polling? && Step(s, Test).looping == s.looping
  {
  }
}
