/**
 eventloop.cc as interleaved steps. The loop thread has a program counter; any other
 thread is midway while it is between its push or its write of quit_ and its wakeup().
 An event that is not enabled changes nothing, so every sequence of events is a run.
 */
module EventLoopSpec {
  type Functor = nat
  type Thread = nat

  // write(2) on a full eventfd fails and leaves the counter alone.
  const EVENTFD_MAX := 0xFFFF_FFFF_FFFF_FFFE

  // Where the loop thread is.
  datatype Pc =
    | Outside                   // not in loop()
    | Testing                   // about to test quit_
    | Polling                   // in poll()
    | Handling(wakeup: bool)    // dispatching; wakeup: handleRead is still to come
    | Entering                  // in doPendingFunctors, before the swap
    | Running(next: nat, kicking: bool)  // next functor; kicking: one has pushed and is about to call wakeup()

  datatype State = State(
    quit: bool,                 // quit_
    looping: bool,              // looping_
    calling: bool,              // callingPendingFunctors_
    pending: seq<Functor>,      // pendingFunctors_
    batch: seq<Functor>,        // the swapped-out vector
    eventfd: nat,               // the kernel's counter
    pc: Pc,
    midway: set<Thread>,
    early: bool,                // queued by the loop thread outside loop(), not swapped out yet
    pushed: seq<Functor>,       // every push so far
    executed: seq<Functor>)     // every call so far

  // What a thread other than the loop thread may do.
  datatype Other = Push(thread: Thread, functor: Functor) | Quit(thread: Thread) | Wake(thread: Thread)

  datatype Event =
    | By(other: Other)
    | OwnPush(functor: Functor) | OwnWake | OwnQuit
    | Loop | Test | PollReturns(wakeup: bool) | Drain
    | Enter | Swap | RunNext | Leave

  const START := State(false, false, false, [], [], 0, Outside, {}, false, [], [])

  // wakeup()
  function Wakeup(s: State): State {
    s.(eventfd := if s.eventfd < EVENTFD_MAX then s.eventfd + 1 else s.eventfd)
  }

  function PushBack(s: State, f: Functor): State {
    s.(pending := s.pending + [f], pushed := s.pushed + [f])
  }

  function OtherStep(s: State, x: Other): State {
    match x
    case Push(t, f) => if t in s.midway then s else PushBack(s, f).(midway := s.midway + {t})
    case Quit(t) => if t in s.midway then s else s.(quit := true, midway := s.midway + {t})
    case Wake(t) => if t in s.midway then Wakeup(s).(midway := s.midway - {t}) else s
  }

  // User code runs in the loop thread outside loop(), in event handlers and in functors.
  predicate InUserCode(s: State) {
    s.pc.Outside? || s.pc.Handling? || (s.pc.Running? && !s.pc.kicking)
  }

  function Step(s: State, e: Event): State {
    match e
    case By(x) => OtherStep(s, x)
    case OwnPush(f) =>
      if !InUserCode(s) then s
      else
        var t := PushBack(s, f).(early := s.early || s.pc.Outside?);
        if s.calling && s.pc.Running? then t.(pc := Running(s.pc.next, true)) else t
    case OwnWake => if s.pc.Running? && s.pc.kicking then Wakeup(s).(pc := Running(s.pc.next, false)) else s
    case OwnQuit => if InUserCode(s) then s.(quit := true) else s
    case Loop => if s.pc.Outside? then s.(looping := true, quit := false, pc := Testing) else s
    case Test =>
      if !s.pc.Testing? then s
      else if s.quit then s.(looping := false, pc := Outside)
      else s.(pc := Polling)
    case PollReturns(wakeup) => if s.pc.Polling? then s.(pc := Handling(wakeup && s.eventfd > 0)) else s
    case Drain => if s.pc.Handling? && s.pc.wakeup then s.(eventfd := 0, pc := Handling(false)) else s
    case Enter => if s.pc.Handling? && !s.pc.wakeup then s.(calling := true, pc := Entering) else s
    case Swap =>
      if s.pc.Entering? then s.(batch := s.pending, pending := [], early := false, pc := Running(0, false)) else s
    case RunNext =>
      if s.pc.Running? && !s.pc.kicking && s.pc.next < |s.batch|
      then s.(executed := s.executed + [s.batch[s.pc.next]], pc := Running(s.pc.next + 1, false))
      else s
    case Leave =>
      if s.pc.Running? && !s.pc.kicking && s.pc.next >= |s.batch|
      then s.(calling := false, batch := [], pc := Testing)
      else s
  }

  function Run(s: State, es: seq<Event>): State
    decreases |es|
  {
    if es == [] then s else Run(Step(s, es[0]), es[1..])
  }

  lemma RunConcat(s: State, es: seq<Event>, fs: seq<Event>)
    ensures Run(s, es + fs) == Run(Run(s, es), fs)
    decreases |es|
  {
    if es == [] {
      assert es + fs == fs;
    } else {
      assert (es + fs)[1..] == es[1..] + fs;
      RunConcat(Step(s, es[0]), es[1..], fs);
    }
  }

  lemma RunLast(s: State, es: seq<Event>, e: Event)
    ensures Run(s, es + [e]) == Step(Run(s, es), e)
  {
    RunConcat(s, es, [e]);
    assert [e][1..] == [];
  }

  // ----- no lost wakeup -----

  // poll() has a reason to return, or a thread is about to give it one.
  ghost predicate Woken(s: State) {
    s.eventfd > 0 || s.midway != {}
  }

  ghost predicate WakeupInv(s: State) {
    && (s.calling <==> s.pc.Entering? || s.pc.Running?)
    && (s.looping <==> !s.pc.Outside?)
    && (s.pc.Polling? && s.quit ==> Woken(s))
    && (s.pending != [] && !s.pc.Handling? && !s.pc.Entering? ==>
          Woken(s) || s.early || (s.pc.Running? && s.pc.kicking))
  }

  // ----- exactly once, in order -----

  ghost predicate QueueInv(s: State) {
    match s.pc
    case Running(next, _) => next <= |s.batch| && s.executed + s.batch[next..] + s.pending == s.pushed
    case _ => s.batch == [] && s.executed + s.pending == s.pushed
  }

  lemma StepKeepsWakeup(s: State, e: Event)
    requires WakeupInv(s)
    ensures WakeupInv(Step(s, e))
  {
    match e
    case By(Push(t, f)) => assert t in s.midway + {t};
    case By(Quit(t)) => assert t in s.midway + {t};
    case _ =>
  }

  lemma PushKeepsQueue(s: State, f: Functor)
    requires QueueInv(s)
    ensures QueueInv(PushBack(s, f))
  {
  }

  lemma RunNextKeepsQueue(s: State)
    requires QueueInv(s)
    ensures QueueInv(Step(s, RunNext))
  {
    if s.pc.Running? && !s.pc.kicking && s.pc.next < |s.batch| {
      var f, rest := s.batch[s.pc.next], s.batch[s.pc.next + 1..];
      assert s.batch[s.pc.next..] == [f] + rest;
      assert s.executed + ([f] + rest) + s.pending == (s.executed + [f]) + rest + s.pending;
    }
  }

  lemma SwapAndLeaveKeepQueue(s: State)
    requires QueueInv(s)
    ensures QueueInv(Step(s, Swap)) && QueueInv(Step(s, Leave))
  {
  }

  // An event that moves no functor.
  predicate Quiet(e: Event) {
    match e
    case By(x) => !x.Push?
    case OwnPush(_) => false
    case RunNext => false
    case Swap => false
    case Leave => false
    case _ => true
  }

  // Only the functors, and where the batch has got to, matter to the queue.
  ghost predicate SameFunctors(s: State, t: State) {
    && t.executed == s.executed && t.batch == s.batch && t.pending == s.pending && t.pushed == s.pushed
    && if s.pc.Running? then t.pc.Running? && t.pc.next == s.pc.next else !t.pc.Running?
  }

  lemma QuietMovesNothing(s: State, e: Event)
    requires Quiet(e)
    ensures SameFunctors(s, Step(s, e))
  {
  }

  lemma SameFunctorsKeepQueue(s: State, t: State)
    requires QueueInv(s) && SameFunctors(s, t)
    ensures QueueInv(t)
  {
  }

  lemma OwnPushKeepsQueue(s: State, f: Functor)
    requires QueueInv(s)
    ensures QueueInv(Step(s, OwnPush(f)))
  {
    PushKeepsQueue(s, f);
  }

  lemma StepKeepsQueue(s: State, e: Event)
    requires QueueInv(s)
    ensures QueueInv(Step(s, e))
  {
    if Quiet(e) {
      QuietMovesNothing(s, e);
      SameFunctorsKeepQueue(s, Step(s, e));
    } else {
      match e
      case By(Push(_, f)) => PushKeepsQueue(s, f);
      case OwnPush(f) => OwnPushKeepsQueue(s, f);
      case RunNext => RunNextKeepsQueue(s);
      case _ => SwapAndLeaveKeepQueue(s);
    }
  }

  lemma {:induction false} RunKeeps(s: State, es: seq<Event>)
    requires WakeupInv(s) && QueueInv(s)
    ensures WakeupInv(Run(s, es)) && QueueInv(Run(s, es))
    decreases |es|
  {
    if es != [] {
      StepKeepsWakeup(s, es[0]);
      StepKeepsQueue(s, es[0]);
      RunKeeps(Step(s, es[0]), es[1..]);
    }
  }

  /** Whatever the interleaving: a loop thread in poll() with a set quit_ or a pending functor is
      woken, or will be; the only exception is a functor that the loop thread itself queued outside loop(). */
  lemma NoLostWakeup(es: seq<Event>)
    ensures var s := Run(START, es);
            s.pc.Polling? ==>
              && (s.quit ==> Woken(s))
              && (s.pending != [] && !s.early ==> Woken(s))
  {
    RunKeeps(START, es);
  }

  /** The exception is real: the loop thread that queues a functor before it calls loop() sleeps on it
      exactly if nothing else was about to wake it. */
  lemma EarlyFunctorCanSleep(s: State, f: Functor)
    requires WakeupInv(s) && s.pc.Outside?
    ensures var t := Run(s, [OwnPush(f), Loop, Test]);
            t.pc.Polling? && t.pending == s.pending + [f] && (Woken(t) <==> Woken(s))
  {
    var es := [OwnPush(f), Loop, Test];
    assert es[1..] == [Loop, Test] && es[1..][1..] == [Test] && es[1..][1..][1..] == [];
    var t := Step(Step(Step(s, OwnPush(f)), Loop), Test);
    assert Run(s, es) == Run(Step(s, OwnPush(f)), [Loop, Test])
        == Run(Step(Step(s, OwnPush(f)), Loop), [Test]) == Run(t, []) == t;
  }

  // The exception ends with the first swap, and needs such a push to begin.
  lemma {:induction false} EarlyNeedsOwnPush(s: State, es: seq<Event>)
    requires !s.early && Run(s, es).early
    ensures exists i :: 0 <= i < |es| && es[i].OwnPush? && Run(s, es[..i]).pc.Outside?
    decreases |es|
  {
    if es != [] {
      if Step(s, es[0]).early {
        assert es[0].OwnPush? && es[..0] == [] && Run(s, es[..0]).pc.Outside?;
      } else {
        EarlyNeedsOwnPush(Step(s, es[0]), es[1..]);
        var i :| 0 <= i < |es| - 1 && es[1..][i].OwnPush? && Run(Step(s, es[0]), es[1..][..i]).pc.Outside?;
        assert es[..i + 1][1..] == es[1..][..i] && es[..i + 1][0] == es[0];
        assert es[i + 1].OwnPush? && Run(s, es[..i + 1]).pc.Outside?;
      }
    }
  }

  // ----- quit -----

  predicate SetsQuit(s: State, e: Event) {
    match e
    case By(Quit(t)) => t !in s.midway
    case OwnQuit => InUserCode(s)
    case _ => false
  }

  predicate ClearsQuit(s: State, e: Event) {
    e.Loop? && s.pc.Outside?
  }

  // Event i set the flag, and no later one cleared it.
  ghost predicate LastWord(es: seq<Event>, i: nat)
    requires i < |es|
  {
    && SetsQuit(Run(START, es[..i]), es[i])
    && forall j :: i < j < |es| ==> !ClearsQuit(Run(START, es[..j]), es[j])
  }

  lemma StepOnQuit(s: State, e: Event)
    ensures Step(s, e).quit == if SetsQuit(s, e) then true else if ClearsQuit(s, e) then false else s.quit
  {
  }

  lemma LastWordOfMore(es: seq<Event>, e: Event, i: nat)
    requires i < |es|
    ensures LastWord(es + [e], i) <==> LastWord(es, i) && !ClearsQuit(Run(START, es), e)
  {
    var fs := es + [e];
    assert fs[..|es|] == es && forall j :: 0 <= j < |es| ==> fs[..j] == es[..j] && fs[j] == es[j];
    assert fs[..i] == es[..i] && fs[i] == es[i];
    if LastWord(fs, i) {
      assert !ClearsQuit(Run(START, fs[..|es|]), fs[|es|]);
      forall j | i < j < |es| ensures !ClearsQuit(Run(START, es[..j]), es[j]) {
        assert !ClearsQuit(Run(START, fs[..j]), fs[j]);
      }
    }
  }

  /** quit_ is set exactly if some quit() took effect and no loop() began after it; a quit() that is over
      before loop() begins is forgotten. */
  lemma {:induction false} QuitIsTheLastWord(es: seq<Event>)
    ensures Run(START, es).quit <==> exists i :: 0 <= i < |es| && LastWord(es, i)
    decreases |es|
  {
    if es != [] {
      var n := |es| - 1;
      var fs, e := es[..n], es[n];
      assert es == fs + [e];
      RunLast(START, fs, e);
      StepOnQuit(Run(START, fs), e);
      QuitIsTheLastWord(fs);
      forall i | 0 <= i < n ensures LastWord(es, i) <==> LastWord(fs, i) && !ClearsQuit(Run(START, fs), e) {
        LastWordOfMore(fs, e, i);
      }
      assert LastWord(es, n) <==> SetsQuit(Run(START, fs), e);
    }
  }

  // So a loop thread polls on although another thread has finished its quit().
  lemma QuitBeforeLoopIsForgotten(s: State, t: Thread)
    requires WakeupInv(s) && s.pc.Outside? && t !in s.midway
    ensures var u := Run(s, [By(Quit(t)), By(Wake(t)), Loop, Test]);
            u.pc.Polling? && !u.quit
  {
    var es := [By(Quit(t)), By(Wake(t)), Loop, Test];
    var u := Step(Step(Step(Step(s, es[0]), es[1]), es[2]), es[3]);
    assert Run(s, es) == u by {
      RunLast(s, [es[0], es[1], es[2]], es[3]);
      RunLast(s, [es[0], es[1]], es[2]);
      RunLast(s, [es[0]], es[1]);
      RunLast(s, [], es[0]);
      assert [es[0], es[1], es[2]] + [es[3]] == es && [es[0], es[1]] + [es[2]] == [es[0], es[1], es[2]];
      assert [es[0]] + [es[1]] == [es[0], es[1]] && [] + [es[0]] == [es[0]];
    }
  }

  /** Every functor runs at most once and in the order of the pushes; what has not run is still queued. */
  lemma RunInPushOrder(es: seq<Event>)
    ensures var s := Run(START, es);
            var rest := if s.pc.Running? && s.pc.next <= |s.batch| then s.batch[s.pc.next..] else [];
            s.executed + rest + s.pending == s.pushed
  {
    RunKeeps(START, es);
    var s := Run(START, es);
    assert s.executed + [] == s.executed;
  }

  lemma StepInBatch(s: State, e: Event)
    requires s.pc.Running? && s.pc.next <= |s.batch| && !e.Leave?
    ensures var t := Step(s, e);
            && t.pc.Running? && t.batch == s.batch
            && if t.pc.next == s.pc.next then t.executed == s.executed
               else s.pc.next < |s.batch| && t.pc.next == s.pc.next + 1
                    && t.executed == s.executed + [s.batch[s.pc.next]]
  {
    match e
    case By(x) => assert OtherStep(s, x).pc == s.pc;
    case RunNext =>
    case OwnPush(f) =>
    case _ =>
  }

  /** One doPendingFunctors runs the functors it swapped out and nothing else, however many more are
      queued meanwhile: until it leaves, the calls made are a prefix of what was left of its batch. */
  lemma {:induction false} BatchIsBounded(s: State, es: seq<Event>)
    requires s.pc.Running? && s.pc.next <= |s.batch| && Leave !in es
    ensures var t := Run(s, es);
            && t.pc.Running? && t.batch == s.batch && s.pc.next <= t.pc.next <= |s.batch|
            && t.executed == s.executed + s.batch[s.pc.next..t.pc.next]
    decreases |es|
  {
    if es == [] {
      assert s.batch[s.pc.next..s.pc.next] == [] && s.executed + [] == s.executed;
    } else {
      assert es == [es[0]] + es[1..];
      var u, t := Step(s, es[0]), Run(s, es);
      StepInBatch(s, es[0]);
      BatchIsBounded(u, es[1..]);
      if u.pc.next == s.pc.next + 1 {
        var f, more := s.batch[s.pc.next], s.batch[u.pc.next..t.pc.next];
        assert s.batch[s.pc.next..t.pc.next] == [f] + more;
        assert (s.executed + [f]) + more == s.executed + ([f] + more);
      }
    }
  }
}
