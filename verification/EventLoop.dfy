/**
 eventloop.cc as code. The fields are those that the loop thread and the other threads
 share; between two statements of the loop thread the others run, as the arguments say.
 Every method is a run of the machine of EventLoopSpec.
 */
module EventLoop {
  import opened EventLoopSpec
  import opened Scripts

  // What user code does in the loop thread: let others run, queue a functor, or quit.
  datatype Action = Let(other: Other) | Queue(functor: Functor, meanwhile: seq<Other>) | QuitLoop

  // One iteration of loop(): who runs when, what poll() returns and what the handlers
  // do before and after the wakeup channel's own, and the functors' scripts.
  datatype Round = Round(beforeTest: seq<Other>, inPoll: seq<Other>, wakeup: bool,
                         before: seq<Action>, after: seq<Action>,
                         beforeSwap: seq<Other>, functors: seq<seq<Action>>)

  function Bys(xs: seq<Other>): seq<Event> {
    if xs == [] then [] else Bys(xs[..|xs| - 1]) + [By(xs[|xs| - 1])]
  }

  function Queueing(f: Functor, meanwhile: seq<Other>): seq<Event> {
    [OwnPush(f)] + Bys(meanwhile) + [OwnWake]
  }

  function Does(x: Action): seq<Event> {
    match x
    case Let(other) => [By(other)]
    case Queue(f, meanwhile) => Queueing(f, meanwhile)
    case QuitLoop => [OwnQuit]
  }

  function DoesAll(xs: seq<Action>): seq<Event> {
    if xs == [] then [] else DoesAll(xs[..|xs| - 1]) + Does(xs[|xs| - 1])
  }

  // The calls of a batch: the i-th functor does scripts[i], or nothing.
  function CallEvents(scripts: seq<seq<Action>>, n: nat): seq<Event> {
    if n == 0 then [] else CallEvents(scripts, n - 1) + ([RunNext] + DoesAll(ScriptOf(scripts, n - 1)))
  }

  function PendingEvents(beforeSwap: seq<Other>, scripts: seq<seq<Action>>, n: nat): seq<Event> {
    [Enter] + Bys(beforeSwap) + [Swap] + CallEvents(scripts, n) + [Leave]
  }

  // The wakeup channel's handler runs between the others', if poll() reported the eventfd.
  function DispatchEvents(round: Round, reported: bool): seq<Event> {
    [PollReturns(round.wakeup)] + DoesAll(round.before) + (if reported then [Drain] else []) + DoesAll(round.after)
  }

  // One round from its poll() on, in s, and from its test of quit_ on.
  function AfterTest(s: State, round: Round): seq<Event> {
    var u := Run(s, Bys(round.inPoll));
    var handled := DispatchEvents(round, round.wakeup && u.eventfd > 0);
    var n := |Run(Step(Run(u, handled), Enter), Bys(round.beforeSwap)).pending|;
    Bys(round.inPoll) + handled + PendingEvents(round.beforeSwap, round.functors, n)
  }

  function RoundEvents(s: State, round: Round): seq<Event> {
    var tested := Bys(round.beforeTest) + [Test];
    tested + AfterTest(Run(s, tested), round)
  }

  function AllRounds(s: State, rounds: seq<Round>): seq<Event> {
    if rounds == [] then []
    else
      var es := AllRounds(s, rounds[..|rounds| - 1]);
      es + RoundEvents(Run(s, es), rounds[|rounds| - 1])
  }

  // A loop() that makes so many of the rounds: all, or the last thing it does is to see quit_.
  function LoopEvents(s: State, rounds: seq<Round>, made: nat): seq<Event>
    requires made <= |rounds|
  {
    if made == |rounds| then AllRounds(s, rounds)
    else AllRounds(s, rounds[..made]) + (Bys(rounds[made].beforeTest) + [Test])
  }

  lemma RunOne(s: State, e: Event)
    ensures Run(s, [e]) == Step(s, e)
  {
  }

  lemma RunBetween(s: State, e: Event, es: seq<Event>, f: Event)
    ensures Run(s, [e] + es) == Run(Step(s, e), es)
    ensures Run(s, [e] + es + [f]) == Step(Run(Step(s, e), es), f)
  {
    assert ([e] + es)[1..] == es;
    RunLast(s, [e] + es, f);
  }

  lemma OtherKeepsPlace(s: State, x: Other)
    ensures var t := Step(s, By(x));
            && t.pc == s.pc && t.calling == s.calling && t.looping == s.looping
            && t.batch == s.batch && t.executed == s.executed
  {
  }

  lemma BysKeepPlace(s: State, xs: seq<Other>)
    ensures var t := Run(s, Bys(xs));
            && t.pc == s.pc && t.calling == s.calling && t.looping == s.looping
            && t.batch == s.batch && t.executed == s.executed
  {
    if xs != [] {
      BysKeepPlace(s, xs[..|xs| - 1]);
      RunLast(s, Bys(xs[..|xs| - 1]), By(xs[|xs| - 1]));
      OtherKeepsPlace(Run(s, Bys(xs[..|xs| - 1])), xs[|xs| - 1]);
    }
  }

  class EventLoop {
    var quit: bool
    var looping: bool
    var callingPendingFunctors: bool
    var pendingFunctors: seq<Functor>
    var eventfd: nat
    ghost var batch: seq<Functor>
    ghost var pc: Pc
    var midway: set<Thread>
    ghost var early: bool
    ghost var pushed: seq<Functor>
    ghost var executed: seq<Functor>

    ghost function Model(): State
      reads this
    {
      State(quit, looping, callingPendingFunctors, pendingFunctors, batch, eventfd, pc, midway, early, pushed, executed)
    }

    ghost predicate Valid()
      reads this
    {
      WakeupInv(Model()) && QueueInv(Model())
    }

    constructor ()
      ensures Model() == START && Valid()
    {
      quit, looping, callingPendingFunctors := false, false, false;
      pendingFunctors, batch, eventfd, midway := [], [], 0, {};
      pc, early, pushed, executed := Outside, false, [], [];
    }

    method WakeUp()
      modifies this`eventfd
      ensures Model() == Wakeup(old(Model()))
    {
      if eventfd < EVENTFD_MAX {
        eventfd := eventfd + 1;
      }
    }

    // One step of another thread: the push or the flag, or the wakeup that follows it.
    method OtherThread(x: Other)
      modifies this
      ensures Model() == Step(old(Model()), By(x))
    {
      match x
      case Push(t, f) =>
        if t !in midway {
          pendingFunctors := pendingFunctors + [f];
          pushed := pushed + [f];
          midway := midway + {t};
        }
      case Quit(t) =>
        if t !in midway {
          quit := true;
          midway := midway + {t};
        }
      case Wake(t) =>
        if t in midway {
          WakeUp();
          midway := midway - {t};
        }
    }

    method Interfere(xs: seq<Other>)
      modifies this
      ensures Model() == Run(old(Model()), Bys(xs))
    {
      ghost var s := Model();
      for i := 0 to |xs|
        invariant Model() == Run(s, Bys(xs[..i]))
      {
        assert xs[..i + 1][..i] == xs[..i];
        RunLast(s, Bys(xs[..i]), By(xs[i]));
        OtherThread(xs[i]);
      }
      assert xs[..|xs|] == xs;
    }

    // queueInLoop in the loop thread: a wakeup is needed only from within a functor.
    method QueueInLoop(f: Functor, meanwhile: seq<Other>)
      requires InUserCode(Model()) && (callingPendingFunctors <==> pc.Running?)
      modifies this
      ensures Model() == Run(old(Model()), Queueing(f, meanwhile))
      ensures pc == old(pc) && batch == old(batch) && executed == old(executed)
      ensures callingPendingFunctors == old(callingPendingFunctors) && looping == old(looping)
    {
      ghost var s := Model();
      pendingFunctors := pendingFunctors + [f];
      pushed := pushed + [f];
      early := early || pc.Outside?;
      if pc.Running? {
        pc := Running(pc.next, true);
      }
      assert Model() == Step(s, OwnPush(f));
      RunOne(s, OwnPush(f));
      BysKeepPlace(Model(), meanwhile);
      RunConcat(s, [OwnPush(f)], Bys(meanwhile));
      RunLast(s, [OwnPush(f)] + Bys(meanwhile), OwnWake);
      Interfere(meanwhile);
      if callingPendingFunctors {
        WakeUp();
        pc := Running(pc.next, false);
      }
    }

    method Perform(x: Action)
      requires InUserCode(Model()) && (callingPendingFunctors <==> pc.Running?)
      modifies this
      ensures Model() == Run(old(Model()), Does(x))
      ensures pc == old(pc) && batch == old(batch) && executed == old(executed)
      ensures callingPendingFunctors == old(callingPendingFunctors) && looping == old(looping)
    {
      match x
      case Let(other) =>
        RunOne(Model(), By(other));
        OtherThread(other);
      case Queue(f, meanwhile) =>
        QueueInLoop(f, meanwhile);
      case QuitLoop =>
        RunOne(Model(), OwnQuit);
        quit := true;
    }

    method PerformAll(xs: seq<Action>)
      requires InUserCode(Model()) && (callingPendingFunctors <==> pc.Running?)
      modifies this
      ensures Model() == Run(old(Model()), DoesAll(xs))
      ensures pc == old(pc) && batch == old(batch) && executed == old(executed)
      ensures callingPendingFunctors == old(callingPendingFunctors) && looping == old(looping)
    {
      ghost var s := Model();
      for i := 0 to |xs|
        invariant Model() == Run(s, DoesAll(xs[..i]))
        invariant pc == s.pc && batch == s.batch && executed == s.executed
        invariant callingPendingFunctors == s.calling && looping == s.looping
      {
        assert xs[..i + 1][..i] == xs[..i];
        RunConcat(s, DoesAll(xs[..i]), Does(xs[i]));
        Perform(xs[i]);
      }
      assert xs[..|xs|] == xs;
    }

    // functors.swap(pendingFunctors_) under the lock.
    method SwapOut() returns (functors: seq<Functor>)
      requires pc.Entering?
      modifies this
      ensures Model() == Step(old(Model()), Swap) && functors == old(pendingFunctors)
    {
      functors := pendingFunctors;
      pendingFunctors := [];
      batch, early, pc := functors, false, Running(0, false);
    }

    // The two ends of doPendingFunctors, where the flag is set and cleared.
    method EnterFunctors()
      requires pc == Handling(false)
      modifies this`callingPendingFunctors, this`pc
      ensures Model() == Step(old(Model()), Enter)
      ensures pc.Entering? && callingPendingFunctors
    {
      callingPendingFunctors := true;
      pc := Entering;
    }

    method LeaveFunctors()
      requires pc == Running(|batch|, false)
      modifies this`callingPendingFunctors, this`pc, this`batch
      ensures Model() == Step(old(Model()), Leave)
      ensures pc.Testing? && !callingPendingFunctors
    {
      callingPendingFunctors := false;
      batch, pc := [], Testing;
    }

    // doPendingFunctors up to its loop; the others may run before the lock is taken.
    method EnterAndSwap(beforeSwap: seq<Other>) returns (functors: seq<Functor>)
      requires pc == Handling(false)
      modifies this
      ensures Model() == Step(Run(Step(old(Model()), Enter), Bys(beforeSwap)), Swap)
      ensures functors == Run(Step(old(Model()), Enter), Bys(beforeSwap)).pending
      ensures pc == Running(0, false) && batch == functors && executed == old(executed)
      ensures callingPendingFunctors && looping == old(looping)
    {
      EnterFunctors();
      BysKeepPlace(Model(), beforeSwap);
      Interfere(beforeSwap);
      functors := SwapOut();
    }

    // functors[i](), which does its script.
    method CallFunctor(functor: Functor, script: seq<Action>)
      requires pc.Running? && !pc.kicking && pc.next < |batch| && functor == batch[pc.next]
      requires callingPendingFunctors
      modifies this
      ensures Model() == Run(old(Model()), [RunNext] + DoesAll(script))
      ensures pc == Running(old(pc.next) + 1, false) && batch == old(batch) && executed == old(executed) + [functor]
      ensures callingPendingFunctors && looping == old(looping)
    {
      ghost var s := Model();
      executed := executed + [functor];
      pc := Running(pc.next + 1, false);
      assert Model() == Step(s, RunNext);
      PerformAll(script);
      RunOne(s, RunNext);
      RunConcat(s, [RunNext], DoesAll(script));
    }

    // The loop of doPendingFunctors.
    method CallAll(functors: seq<Functor>, scripts: seq<seq<Action>>)
      requires pc == Running(0, false) && batch == functors && callingPendingFunctors
      modifies this
      ensures Model() == Run(old(Model()), CallEvents(scripts, |functors|))
      ensures pc == Running(|functors|, false) && batch == functors && executed == old(executed) + functors
      ensures callingPendingFunctors && looping == old(looping)
    {
      ghost var s := Model();
      for i := 0 to |functors|
        invariant Model() == Run(s, CallEvents(scripts, i))
        invariant pc == Running(i, false) && batch == functors && executed == s.executed + functors[..i]
        invariant callingPendingFunctors && looping == s.looping
      {
        CallOne(functors, i, ScriptOf(scripts, i), s.executed);
        RunConcat(s, CallEvents(scripts, i), [RunNext] + DoesAll(ScriptOf(scripts, i)));
      }
      assert functors[..|functors|] == functors;
    }

    // One turn of it; before it began, these had been executed.
    method CallOne(functors: seq<Functor>, i: nat, script: seq<Action>, ghost before: seq<Functor>)
      requires i < |functors| && pc == Running(i, false) && batch == functors && callingPendingFunctors
      requires executed == before + functors[..i]
      modifies this
      ensures Model() == Run(old(Model()), [RunNext] + DoesAll(script))
      ensures pc == Running(i + 1, false) && batch == functors && executed == before + functors[..i + 1]
      ensures callingPendingFunctors && looping == old(looping)
    {
      CallFunctor(functors[i], script);
      assert functors[..i + 1] == functors[..i] + [functors[i]];
      assert executed == before + functors[..i + 1];
    }

    // Swap the queue out and call what was in it; what is queued meanwhile stays for the next time.
    method DoPendingFunctors(beforeSwap: seq<Other>, scripts: seq<seq<Action>>) returns (functors: seq<Functor>)
      requires pc == Handling(false)
      modifies this
      ensures functors == Run(Step(old(Model()), Enter), Bys(beforeSwap)).pending
      ensures Model() == Run(old(Model()), PendingEvents(beforeSwap, scripts, |functors|))
      ensures executed == old(executed) + functors
      ensures pc.Testing? && !callingPendingFunctors && looping == old(looping)
    {
      ghost var s := Model();
      functors := EnterAndSwap(beforeSwap);
      ghost var es := [Enter] + Bys(beforeSwap) + [Swap];
      assert Model() == Run(s, es) by { RunBetween(s, Enter, Bys(beforeSwap), Swap); }
      CallAll(functors, scripts);
      assert Model() == Run(s, es + CallEvents(scripts, |functors|)) by { RunConcat(s, es, CallEvents(scripts, |functors|)); }
      RunLast(s, es + CallEvents(scripts, |functors|), Leave);
      LeaveFunctors();
    }

    // handleRead(), if poll() reported the eventfd.
    method HandleRead(wakeup: bool)
      requires pc == Handling(wakeup)
      modifies this`eventfd, this`pc
      ensures Model() == Run(old(Model()), if wakeup then [Drain] else [])
      ensures eventfd == if wakeup then 0 else old(eventfd)
      ensures pc == Handling(false)
    {
      if wakeup {
        RunOne(Model(), Drain);
        eventfd := 0;
        pc := Handling(false);
      }
    }

    // Dispatch what poll() returned; the wakeup channel's handler is handleRead.
    method HandleEvents(round: Round)
      requires pc.Polling? && !callingPendingFunctors
      modifies this
      ensures Model() == Run(old(Model()), DispatchEvents(round, round.wakeup && old(eventfd) > 0))
      ensures pc == Handling(false) && !callingPendingFunctors && looping == old(looping)
    {
      ghost var s := Model();
      var wakeup := round.wakeup && eventfd > 0;
      ghost var drain := if wakeup then [Drain] else [];
      pc := Handling(wakeup);
      ghost var es := [PollReturns(round.wakeup)];
      assert Model() == Run(s, es) by { RunOne(s, PollReturns(round.wakeup)); }
      PerformAll(round.before);
      assert Model() == Run(s, es + DoesAll(round.before)) by { RunConcat(s, es, DoesAll(round.before)); }
      es := es + DoesAll(round.before);
      HandleRead(wakeup);
      assert Model() == Run(s, es + drain) by { RunConcat(s, es, drain); }
      es := es + drain;
      PerformAll(round.after);
      assert Model() == Run(s, es + DoesAll(round.after)) by { RunConcat(s, es, DoesAll(round.after)); }
    }

    // The body of the main loop after its test: poll, dispatch, and run what is pending.
    method PollOnce(round: Round)
      requires pc.Polling? && !callingPendingFunctors
      modifies this
      ensures Model() == Run(old(Model()), AfterTest(old(Model()), round))
      ensures pc.Testing? && !callingPendingFunctors && looping == old(looping)
    {
      ghost var s := Model();
      BysKeepPlace(s, round.inPoll);
      Interfere(round.inPoll);
      ghost var es, handled := Bys(round.inPoll), DispatchEvents(round, round.wakeup && eventfd > 0);
      HandleEvents(round);
      assert Model() == Run(s, es + handled) by { RunConcat(s, es, handled); }
      es := es + handled;
      var functors := DoPendingFunctors(round.beforeSwap, round.functors);
      RunConcat(s, es, PendingEvents(round.beforeSwap, round.functors, |functors|));
    }

    // The main loop, over as many rounds as are given: it makes them all, but stops at the first test that
    // sees quit_.
    method Loop(rounds: seq<Round>) returns (made: nat)
      requires Valid() && pc.Outside?
      modifies this
      ensures made <= |rounds| && (made < |rounds| <==> pc.Outside?) && Valid()
      ensures var begun := Step(old(Model()), Event.Loop);
              Model() == Run(begun, LoopEvents(begun, rounds, made))
      ensures made < |rounds| ==> quit && !looping
    {
      ghost var s := Model();
      looping, quit, pc := true, false, Testing;
      ghost var begun := Model();
      made := MakeRounds(rounds);
      KeepsValid(s, LoopEvents(begun, rounds, made));
    }

    // The rounds of the main loop, up to a test that sees quit_.
    method MakeRounds(rounds: seq<Round>) returns (made: nat)
      requires pc.Testing? && !callingPendingFunctors && looping
      modifies this
      ensures made <= |rounds| && Model() == Run(old(Model()), LoopEvents(old(Model()), rounds, made))
      ensures if made < |rounds| then pc.Outside? && quit && !looping else pc.Testing?
    {
      ghost var s := Model();
      made := 0;
      while made < |rounds|
        invariant made <= |rounds| && Model() == Run(s, AllRounds(s, rounds[..made]))
        invariant pc.Testing? && !callingPendingFunctors && looping
      {
        TestQuit(rounds[made].beforeTest);
        if quit {
          RoundsMade(s, rounds, made);
          return;
        }
        ghost var u := Model();
        PollOnce(rounds[made]);
        OneMoreRound(s, rounds, made, u);
        made := made + 1;
      }
      RoundsMade(s, rounds, made);
    }

    // while (!quit_): the others may run before the test.
    method TestQuit(beforeTest: seq<Other>)
      requires pc.Testing? && !callingPendingFunctors && looping
      modifies this
      ensures Model() == Run(old(Model()), Bys(beforeTest) + [Test])
      ensures !callingPendingFunctors
      ensures if quit then pc.Outside? && !looping else pc.Polling? && looping
    {
      ghost var s := Model();
      BysKeepPlace(s, beforeTest);
      Interfere(beforeTest);
      RunLast(s, Bys(beforeTest), Test);
      if quit {
        looping, pc := false, Outside;
      } else {
        pc := Polling;
      }
    }
  }

  lemma OneMoreRound(s: State, rounds: seq<Round>, made: nat, u: State)
    requires made < |rounds|
    requires var round, es := rounds[made], AllRounds(s, rounds[..made]);
             u == Run(Run(s, es), Bys(round.beforeTest) + [Test])
    ensures Run(u, AfterTest(u, rounds[made])) == Run(s, AllRounds(s, rounds[..made + 1]))
  {
    var round, es := rounds[made], AllRounds(s, rounds[..made]);
    var tested := Bys(round.beforeTest) + [Test];
    RunConcat(Run(s, es), tested, AfterTest(u, round));
    RunConcat(s, es, RoundEvents(Run(s, es), round));
    assert rounds[..made + 1][..made] == rounds[..made] && rounds[..made + 1][made] == round;
  }

  lemma RoundsMade(s: State, rounds: seq<Round>, made: nat)
    requires made <= |rounds|
    ensures var u := Run(s, AllRounds(s, rounds[..made]));
            Run(s, LoopEvents(s, rounds, made)) ==
              if made == |rounds| then u else Run(u, Bys(rounds[made].beforeTest) + [Test])
  {
    if made == |rounds| {
      assert rounds[..made] == rounds;
    } else {
      RunConcat(s, AllRounds(s, rounds[..made]), Bys(rounds[made].beforeTest) + [Test]);
    }
  }

  lemma KeepsValid(s: State, es: seq<Event>)
    requires WakeupInv(s) && QueueInv(s)
    ensures var t := Run(Step(s, Event.Loop), es); WakeupInv(t) && QueueInv(t)
  {
    RunKeeps(s, [Event.Loop] + es);
    assert ([Event.Loop] + es)[1..] == es;
  }
}
