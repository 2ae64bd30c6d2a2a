/**
 The blocking operations of the two queues and of ThreadPool as code: loops that wait
 while their condition does not hold. What the other threads do while this one sleeps
 is an argument, one sequence of steps per wait; the last one may leave it asleep.
 */
module Monitor {
  import opened MonitorSpec

  ghost predicate ByOthers(es: seq<Event>, t: Thread) {
    forall e :: e in es && !e.Stop? ==> e.thread != t
  }

  // Others can wake a sleeping thread, and do nothing else to it.
  lemma {:induction false} OthersOnlyWake(s: State, es: seq<Event>, t: Thread)
    requires ByOthers(es, t) && t in s.threads
    ensures var u := Run(s, es);
            && u.kind == s.kind && t in u.threads
            && match s.threads[t]
               case ParkedNotFull(x, back) => u.threads[t] == ParkedNotFull(x, back) || u.threads[t] == Putting(x, back)
               case ParkedNotEmpty => u.threads[t] == ParkedNotEmpty || u.threads[t] == Getting
               case pc => u.threads[t] == pc
    decreases |es|
  {
    if es != [] {
      assert es[0] in es && forall e :: e in es[1..] ==> e in es;
      StepOnlyWakes(s, es[0], t);
      OthersOnlyWake(Step(s, es[0]), es[1..], t);
    }
  }

  lemma StepOnlyWakes(s: State, e: Event, t: Thread)
    requires (e.Stop? || e.thread != t) && t in s.threads
    ensures var u := Step(s, e);
            && u.kind == s.kind && t in u.threads
            && match s.threads[t]
               case ParkedNotFull(x, back) => u.threads[t] == ParkedNotFull(x, back) || u.threads[t] == Putting(x, back)
               case ParkedNotEmpty => u.threads[t] == ParkedNotEmpty || u.threads[t] == Getting
               case pc => u.threads[t] == pc
  {
  }

  // What happens in these waits of t, one after another.
  function Sleeps(t: Thread, waits: seq<seq<Event>>): seq<Event> {
    if waits == [] then []
    else Sleeps(t, waits[..|waits| - 1]) + ([Go(t)] + waits[|waits| - 1] + [Spurious(t)])
  }

  // As many items as the capacity allows, or more.
  predicate AtCapacity(kind: Kind, n: nat) {
    match kind
    case Unbounded => false
    case Bounded(cap) => n >= cap
    case Pool(max) => max != 0 && n >= max
  }

  class Monitor {
    const kind: Kind
    var queue: seq<Item>
    var running: bool
    var threads: map<Thread, Pc>
    ghost var put: seq<Item>
    ghost var taken: seq<Item>

    ghost function Model(): State
      reads this
    {
      State(kind, queue, running, threads, put, taken)
    }

    constructor (kind: Kind)
      ensures Model() == Start(kind) && Inv(Model())
    {
      this.kind := kind;
      queue, running, threads, put, taken := [], true, map[], [], [];
    }

    predicate IsFull()
      reads this
      ensures IsFull() == Full(Model())
    {
      match kind
      case Unbounded => false
      case Bounded(cap) => |queue| >= cap
      case Pool(max) => max > 0 && |queue| >= max
    }

    method Push(t: Thread, x: Item, back: Back)
      requires !IsFull()
      modifies this
      ensures Model() == PutSection(old(Model()), t, x, back)
    {
      queue := queue + [x];
      put := put + [x];
      threads := WakeNotEmpty(threads)[t := After(back)];
    }

    method Pop(t: Thread) returns (x: Item)
      requires queue != []
      modifies this
      ensures Model() == GetSection(old(Model()), t) && x == old(queue)[0]
    {
      x := queue[0];
      queue := queue[1..];
      taken := taken + [x];
      if kind.Bounded? || (kind.Pool? && kind.max > 0) {
        threads := WakeNotFull(threads);
      }
      threads := threads[t := if kind.Pool? then Busy(x.puts) else Outside];
    }

    // One step of any thread.
    method Perform(e: Event)
      modifies this
      ensures Model() == Step(old(Model()), e)
    {
      match e
      case Call(t, isPut, x) =>
        if t !in threads || threads[t].Outside? {
          threads := threads[t := if isPut then Putting(x, ToClient) else if kind.Pool? then Testing else Getting];
        }
      case Go(t) =>
        if t in threads {
          match threads[t] {
            case Putting(x, back) =>
              if IsFull() { threads := threads[t := ParkedNotFull(x, back)]; } else { Push(t, x, back); }
            case Getting =>
              if queue == [] {
                threads := threads[t := if running then ParkedNotEmpty else Testing];
              } else {
                var _ := Pop(t);
              }
            case Testing => threads := threads[t := if running then Getting else Exited];
            case Busy(rest) => threads := threads[t := if rest == [] then Testing else Putting(rest[0], ToTask(rest[1..]))];
            case _ =>
          }
        }
      case Spurious(t) =>
        if t in threads {
          match threads[t] {
            case ParkedNotEmpty => threads := threads[t := Getting];
            case ParkedNotFull(x, back) => threads := threads[t := Putting(x, back)];
            case _ =>
          }
        }
      case Stop =>
        if kind.Pool? {
          running := false;
          threads := WakeNotEmpty(threads);
        }
    }

    method PerformAll(es: seq<Event>)
      modifies this
      ensures Model() == Run(old(Model()), es)
    {
      ghost var s := Model();
      for i := 0 to |es|
        invariant Model() == Run(s, es[..i])
      {
        assert es[..i + 1] == es[..i] + [es[i]];
        RunLast(s, es[..i], es[i]);
        Perform(es[i]);
      }
      assert es[..|es|] == es;
    }

    // wait(): release the lock and sleep, and take the lock again when woken, for a reason or not.
    method Wait(t: Thread, e: Event, es: seq<Event>) returns (ghost all: seq<Event>)
      requires t in threads && ByOthers(es, t) && e == Go(t)
      requires match threads[t]
               case Putting(_, _) => IsFull()
               case Getting => queue == [] && running
               case _ => false
      modifies this
      ensures Model() == Run(old(Model()), all) && all == [e] + es + [Spurious(t)]
      ensures t in threads && threads[t] == old(threads[t])
    {
      ghost var s := Model();
      Perform(e);
      OthersOnlyWake(Model(), es, t);
      PerformAll(es);
      all := [e] + es;
      assert all[1..] == es;
      RunLast(s, all, Spurious(t));
      Perform(Spurious(t));
      all := all + [Spurious(t)];
    }

    // put() and run(): wait while the queue is full, then append and wake the consumers.
    method Put(t: Thread, x: Item, waits: seq<seq<Event>>) returns (done: bool, slept: nat)
      requires Inv(Model()) && (t in threads ==> threads[t].Outside?)
      requires forall i :: 0 <= i < |waits| ==> ByOthers(waits[i], t)
      modifies this
      ensures slept <= |waits| && (!done ==> slept == |waits|) && Inv(Model())
      ensures Model() == Run(old(Model()), [Call(t, true, x)] + Sleeps(t, waits[..slept]) + if done then [Go(t)] else [])
      ensures if done then queue != [] && queue[|queue| - 1] == x && PcOf(Model(), t) == Outside
              else IsFull() && PcOf(Model(), t) == Putting(x, ToClient)
      ensures !done ==> AtCapacity(kind, |queue|)
      ensures !AtCapacity(kind, old(|queue|)) ==> done && queue == old(queue) + [x] && put == old(put) + [x]
    {
      ghost var s, call := Model(), [Call(t, true, x)];
      assert call[1..] == [];
      Perform(Call(t, true, x));
      slept := 0;
      while IsFull() && slept < |waits|
        invariant 0 <= slept <= |waits| && Model() == Run(s, call + Sleeps(t, waits[..slept]))
        invariant t in threads && threads[t] == Putting(x, ToClient)
        invariant if slept == 0 then queue == old(queue) && put == old(put) else AtCapacity(kind, old(|queue|))
      {
        ghost var all := Wait(t, Go(t), waits[slept]);
        OneMoreSleep(s, call, t, waits, slept, all);
        slept := slept + 1;
      }
      done := !IsFull();
      ghost var es := call + Sleeps(t, waits[..slept]);
      if done {
        RunLast(s, es, Go(t));
        Push(t, x, ToClient);
      } else {
        assert es + [] == es;
      }
      RunKeeps(s, if done then es + [Go(t)] else es);
    }

    // get() and take(): wait while the queue is empty, then remove the front and wake the producers.
    method Get(t: Thread, waits: seq<seq<Event>>) returns (x: Item, done: bool, slept: nat)
      requires Inv(Model()) && t in threads && threads[t].Getting?
      requires forall i :: 0 <= i < |waits| ==> ByOthers(waits[i], t)
      modifies this
      ensures slept <= |waits| && (!done && running ==> slept == |waits|) && Inv(Model())
      ensures Model() == Run(old(Model()), Sleeps(t, waits[..slept]) + if done then [Go(t)] else [])
      ensures done ==> taken != [] && x == taken[|taken| - 1]
      ensures !done ==> queue == [] && PcOf(Model(), t) == Getting
      ensures old(queue) != [] ==> done && x == old(queue)[0] && queue == old(queue)[1..] && taken == old(taken) + [x]
    {
      ghost var s := Model();
      slept := 0;
      while queue == [] && running && slept < |waits|
        invariant 0 <= slept <= |waits| && Model() == Run(s, [] + Sleeps(t, waits[..slept]))
        invariant t in threads && threads[t].Getting?
        invariant if slept == 0 then queue == old(queue) && taken == old(taken) else old(queue) == []
      {
        ghost var all := Wait(t, Go(t), waits[slept]);
        OneMoreSleep(s, [], t, waits, slept, all);
        slept := slept + 1;
      }
      x, done := Item(0, []), queue != [];
      ghost var es := Sleeps(t, waits[..slept]);
      assert [] + es == es && es + [] == es;
      if done {
        RunLast(s, es, Go(t));
        x := Pop(t);
      }
      RunKeeps(s, if done then es + [Go(t)] else es);
    }
  }

  lemma OneMoreSleep(s: State, before: seq<Event>, t: Thread, waits: seq<seq<Event>>, i: nat, all: seq<Event>)
    requires i < |waits| && all == [Go(t)] + waits[i] + [Spurious(t)]
    ensures Run(Run(s, before + Sleeps(t, waits[..i])), all) == Run(s, before + Sleeps(t, waits[..i + 1]))
  {
    assert waits[..i + 1][..i] == waits[..i] && waits[..i + 1][i] == waits[i];
    RunConcat(s, before + Sleeps(t, waits[..i]), all);
    assert before + Sleeps(t, waits[..i]) + all == before + (Sleeps(t, waits[..i]) + all);
  }
}
