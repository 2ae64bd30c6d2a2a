/**
 blockingqueue.h, boundedblockingqueue.h and the queue of threadpool.cc: one monitor
 with two conditions, of three kinds. A critical section, from taking the lock to
 releasing it or waiting, is one step; a woken thread takes the lock again and tests
 its condition again, also after a spurious wakeup.
 */
module MonitorSpec {
  type Thread = nat

  // An item of a queue; for a pool a task, with what it passes to run() when it runs.
  datatype Item = Item(id: int, puts: seq<Item>)

  // No bound; at most cap items; a thread pool, in which a maximum of 0 means no bound.
  datatype Kind = Unbounded | Bounded(cap: nat) | Pool(max: nat)

  // Where a put returns to: a client, or a task that has more to do.
  datatype Back = ToClient | ToTask(rest: seq<Item>)

  // What a thread will do next. Testing, Busy and Exited are the worker loop of a pool.
  datatype Pc =
    | Outside
    | Putting(item: Item, back: Back) | ParkedNotFull(item: Item, back: Back)
    | Getting | ParkedNotEmpty
    | Testing | Busy(rest: seq<Item>) | Exited

  datatype State = State(
    kind: Kind,
    queue: seq<Item>,
    running: bool,
    threads: map<Thread, Pc>,
    put: seq<Item>,      // all items ever inserted
    taken: seq<Item>)    // all items ever removed

  datatype Event = Call(thread: Thread, put: bool, item: Item) | Go(thread: Thread) | Spurious(thread: Thread) | Stop

  function PcOf(s: State, t: Thread): Pc {
    if t in s.threads then s.threads[t] else Outside
  }

  predicate Full(s: State) {
    match s.kind
    case Unbounded => false
    case Bounded(cap) => |s.queue| >= cap
    case Pool(max) => max > 0 && |s.queue| >= max
  }

  // pthread_cond_broadcast: the threads parked on the condition will take the lock again.
  function WakeNotEmpty(threads: map<Thread, Pc>): map<Thread, Pc> {
    map t | t in threads :: if threads[t].ParkedNotEmpty? then Getting else threads[t]
  }

  function WakeNotFull(threads: map<Thread, Pc>): map<Thread, Pc> {
    map t | t in threads :: if threads[t].ParkedNotFull? then Putting(threads[t].item, threads[t].back) else threads[t]
  }

  function At(s: State, t: Thread, pc: Pc): State {
    s.(threads := s.threads[t := pc])
  }

  // put() and ThreadPool::run()
  function PutSection(s: State, t: Thread, x: Item, back: Back): State {
    if Full(s) then At(s, t, ParkedNotFull(x, back))
    else s.(queue := s.queue + [x], put := s.put + [x], threads := WakeNotEmpty(s.threads)[t := After(back)])
  }

  function After(back: Back): Pc {
    match back
    case ToClient => Outside
    case ToTask(rest) => Busy(rest)
  }

  // get() and ThreadPool::take(); only a pool's queue can be left empty-handed, after stop().
  function GetSection(s: State, t: Thread): State {
    if s.queue == [] && s.running then At(s, t, ParkedNotEmpty)
    else if s.queue == [] then At(s, t, Testing)
    else
      var x := s.queue[0];
      var wake := s.kind.Bounded? || (s.kind.Pool? && s.kind.max > 0);
      var threads := if wake then WakeNotFull(s.threads) else s.threads;
      s.(queue := s.queue[1..], taken := s.taken + [x],
         threads := threads[t := if s.kind.Pool? then Busy(x.puts) else Outside])
  }

  function Step(s: State, e: Event): State {
    match e
    case Call(t, put, x) =>
      if !PcOf(s, t).Outside? then s
      else if put then At(s, t, Putting(x, ToClient))
      else if s.kind.Pool? then At(s, t, Testing)
      else At(s, t, Getting)
    case Go(t) =>
      (match PcOf(s, t)
       case Putting(x, back) => PutSection(s, t, x, back)
       case Getting => GetSection(s, t)
       case Testing => At(s, t, if s.running then Getting else Exited)
       case Busy(rest) => At(s, t, if rest == [] then Testing else Putting(rest[0], ToTask(rest[1..])))
       case _ => s)
    case Spurious(t) =>
      (match PcOf(s, t)
       case ParkedNotEmpty => At(s, t, Getting)
       case ParkedNotFull(x, back) => At(s, t, Putting(x, back))
       case _ => s)
    case Stop => if s.kind.Pool? then s.(running := false, threads := WakeNotEmpty(s.threads)) else s
  }

  function Run(s: State, es: seq<Event>): State
    decreases |es|
  {
    if es == [] then s else Run(Step(s, es[0]), es[1..])
  }

  lemma RunConcat(s: State, es: seq<Event>, fs: seq<Event>)
    ensures Run(s, es + fs) == Run(Run(s, es), fs)
    decreases |es|
  {
    if es == [] {
      assert es + fs == fs;
    } else {
      assert (es + fs)[1..] == es[1..] + fs;
      RunConcat(Step(s, es[0]), es[1..], fs);
    }
  }

  lemma RunLast(s: State, es: seq<Event>, e: Event)
    ensures Run(s, es + [e]) == Step(Run(s, es), e)
  {
    RunConcat(s, es, [e]);
    assert [e][1..] == [];
  }

  function Start(kind: Kind): State {
    State(kind, [], true, map[], [], [])
  }

  // ----- what every interleaving keeps -----

  ghost predicate ParkedRight(s: State) {
    && (forall t :: t in s.threads && s.threads[t].ParkedNotEmpty? ==> s.queue == [] && s.running)
    && (forall t :: t in s.threads && s.threads[t].ParkedNotFull? ==> Full(s))
  }

  ghost predicate WithinCapacity(s: State) {
    match s.kind
    case Unbounded => true
    case Bounded(cap) => |s.queue| <= cap
    case Pool(max) => max > 0 ==> |s.queue| <= max
  }

  // Items come out in the order in which they went in.
  ghost predicate Fifo(s: State) {
    s.taken + s.queue == s.put
  }

  // A place in the worker loop of a pool, where a task may be inside run().
  predicate InLoop(pc: Pc) {
    match pc
    case Testing => true
    case Busy(_) => true
    case Exited => true
    case Putting(_, back) => back.ToTask?
    case ParkedNotFull(_, back) => back.ToTask?
    case _ => false
  }

  // Only a pool stops, and only a pool has workers.
  ghost predicate RolesRight(s: State) {
    !s.kind.Pool? ==> s.running && forall t :: t in s.threads ==> !InLoop(s.threads[t])
  }

  ghost predicate Inv(s: State) {
    ParkedRight(s) && WithinCapacity(s) && Fifo(s) && RolesRight(s)
  }

  lemma PutKeeps(s: State, t: Thread, x: Item, back: Back)
    requires Inv(s) && (back.ToTask? ==> s.kind.Pool?)
    ensures Inv(PutSection(s, t, x, back))
  {
  }

  lemma GetKeeps(s: State, t: Thread)
    requires Inv(s)
    ensures Inv(GetSection(s, t))
  {
  }

  lemma StepKeeps(s: State, e: Event)
    requires Inv(s)
    ensures Inv(Step(s, e))
  {
    match e
    case Go(t) =>
      match PcOf(s, t) {
        case Putting(x, back) => PutKeeps(s, t, x, back);
        case Getting => GetKeeps(s, t);
        case _ =>
      }
    case _ =>
  }

  lemma {:induction false} RunKeeps(s: State, es: seq<Event>)
    requires Inv(s)
    ensures Inv(Run(s, es)) && Run(s, es).kind == s.kind
    decreases |es|
  {
    if es != [] {
      StepKeeps(s, es[0]);
      RunKeeps(Step(s, es[0]), es[1..]);
    }
  }

  /** In every interleaving: a thread sleeps only on a condition that is false, capacity is kept, order is
      kept, and with a positive capacity producers and consumers never sleep at once. */
  lemma EveryInterleaving(kind: Kind, es: seq<Event>)
    ensures var s := Run(Start(kind), es);
            && ParkedRight(s) && WithinCapacity(s) && Fifo(s)
            && (kind != Bounded(0) ==>
                  forall t, u :: t in s.threads && u in s.threads && s.threads[t].ParkedNotEmpty? ==>
                    !s.threads[u].ParkedNotFull?)
  {
    RunKeeps(Start(kind), es);
  }

  // ----- stopping a pool -----

  // No task passes more than b further tasks to run().
  predicate Small(x: Item, b: nat) {
    |x.puts| <= b && forall y :: y in x.puts ==> Small(y, b)
  }

  predicate AllSmall(xs: seq<Item>, b: nat) {
    forall x :: x in xs ==> Small(x, b)
  }

  predicate SmallPc(pc: Pc, b: nat) {
    match pc
    case Putting(x, back) => Small(x, b) && (back.ToTask? ==> |back.rest| < b && AllSmall(back.rest, b))
    case ParkedNotFull(x, back) => Small(x, b) && (back.ToTask? ==> |back.rest| < b && AllSmall(back.rest, b))
    case Busy(rest) => |rest| <= b && AllSmall(rest, b)
    case _ => true
  }

  ghost predicate SmallTasks(s: State, b: nat) {
    AllSmall(s.queue, b) && forall t :: t in s.threads ==> SmallPc(s.threads[t], b)
  }

  ghost predicate SmallCalls(es: seq<Event>, b: nat) {
    forall e :: e in es && e.Call? ==> Small(e.item, b)
  }

  lemma StepKeepsSmall(s: State, e: Event, b: nat)
    requires SmallTasks(s, b) && (e.Call? ==> Small(e.item, b))
    ensures SmallTasks(Step(s, e), b)
  {
    if e.Go? && e.thread in s.threads {
      match s.threads[e.thread] {
        case Getting =>
          if s.queue != [] {
            assert s.queue[0] in s.queue && Small(s.queue[0], b);
            assert forall x :: x in s.queue[1..] ==> x in s.queue;
          }
        case Busy(rest) =>
          if rest != [] {
            assert rest[0] in rest && forall x :: x in rest[1..] ==> x in rest;
          }
        case _ =>
      }
    }
  }

  // How many steps of its own a worker is from its exit once the pool is stopped: at most one more task
  // is taken, and each put of a task is two steps.
  function Rank(pc: Pc, b: nat): nat {
    match pc
    case ParkedNotEmpty => 2 * b + 4
    case Getting => 2 * b + 3
    case Busy(rest) => 2 * |rest| + 2
    case Putting(_, back) => if back.ToTask? then 2 * |back.rest| + 3 else 0
    case Testing => 1
    case _ => 0
  }

  predicate IsWorker(s: State, t: Thread) {
    t in s.threads && (s.threads[t].Getting? || s.threads[t].ParkedNotEmpty? || InLoop(s.threads[t]))
  }

  // The task that t runs calls run() on a full queue.
  predicate IsHeld(s: State, t: Thread) {
    t in s.threads && Full(s) && (s.threads[t].Putting? || s.threads[t].ParkedNotFull?) && InLoop(s.threads[t])
  }

  // t is not held when it is its turn.
  predicate NeverHeld(s: State, es: seq<Event>, t: Thread)
    decreases |es|
  {
    es == [] || ((es[0] == Go(t) ==> !IsHeld(s, t)) && NeverHeld(Step(s, es[0]), es[1..], t))
  }

  function StepsOf(es: seq<Event>, t: Thread): nat {
    if es == [] then 0 else (if es[0] == Go(t) then 1 else 0) + StepsOf(es[1..], t)
  }

  lemma StoppedStep(s: State, e: Event, t: Thread, b: nat)
    requires Inv(s) && s.kind.Pool? && !s.running && IsWorker(s, t) && !s.threads[t].ParkedNotFull? && SmallTasks(s, b)
    requires e == Go(t) ==> !IsHeld(s, t)
    ensures var u := Step(s, e);
            && !u.running && u.kind == s.kind && IsWorker(u, t) && !u.threads[t].ParkedNotFull?
            && if e == Go(t) && Rank(s.threads[t], b) > 0 then Rank(u.threads[t], b) < Rank(s.threads[t], b)
               else u.threads[t] == s.threads[t]
  {
    assert s.queue != [] ==> s.queue[0] in s.queue && Small(s.queue[0], b);
  }

  /** After stop(), whatever the other threads do, a worker that gets as many steps as its rank has exited,
      unless its task calls run() on a full queue; what is left in the queue does not delay it. */
  lemma {:induction false} WorkersExit(s: State, es: seq<Event>, t: Thread, b: nat)
    requires Inv(s) && s.kind.Pool? && !s.running && IsWorker(s, t) && !s.threads[t].ParkedNotFull?
    requires SmallTasks(s, b) && SmallCalls(es, b) && NeverHeld(s, es, t)
    requires StepsOf(es, t) >= Rank(s.threads[t], b)
    ensures PcOf(Run(s, es), t) == Exited
    decreases |es|
  {
    if es == [] {
      assert !s.threads[t].ParkedNotEmpty?;
    } else {
      assert es[0] in es && forall e :: e in es[1..] ==> e in es;
      StepKeeps(s, es[0]);
      StepKeepsSmall(s, es[0], b);
      StoppedStep(s, es[0], t, b);
      WorkersExit(Step(s, es[0]), es[1..], t, b);
    }
  }

  // A pool without a maximum never holds a task.
  lemma {:induction false} UnboundedNeverHolds(s: State, es: seq<Event>, t: Thread)
    requires s.kind == Pool(0)
    ensures NeverHeld(s, es, t)
    decreases |es|
  {
    if es != [] {
      UnboundedNeverHolds(Step(s, es[0]), es[1..], t);
    }
  }

  // Nor is a task held that does not call run().
  lemma {:induction false} WithoutRunNeverHolds(s: State, es: seq<Event>, t: Thread)
    requires Inv(s) && s.kind.Pool? && IsWorker(s, t) && SmallTasks(s, 0) && SmallCalls(es, 0)
    ensures NeverHeld(s, es, t)
    decreases |es|
  {
    if es != [] {
      assert es[0] in es && forall e :: e in es[1..] ==> e in es;
      StepKeeps(s, es[0]);
      StepKeepsSmall(s, es[0], 0);
      WorkersStay(s, es[0], t);
      WithoutRunNeverHolds(Step(s, es[0]), es[1..], t);
    }
  }

  lemma WorkersStay(s: State, e: Event, t: Thread)
    requires Inv(s) && IsWorker(s, t) && s.kind.Pool?
    ensures IsWorker(Step(s, e), t)
  {
  }

  // No thread will take from the queue again; a sleeping one would be woken by a put.
  ghost predicate NobodyTakes(s: State) {
    forall t :: t in s.threads ==> !s.threads[t].Getting? && !s.threads[t].ParkedNotEmpty?
  }

  // A task is held from the moment it calls run() on a full queue.
  lemma HeldByRun(s: State, t: Thread)
    requires Full(s) && t in s.threads && s.threads[t].Busy? && s.threads[t].rest != []
    ensures IsHeld(Step(s, Go(t)), t) && Step(s, Go(t)).queue == s.queue
    ensures NobodyTakes(s) ==> NobodyTakes(Step(s, Go(t)))
  {
  }

  /** Once nobody takes, a worker whose task is held never exits, whatever happens, and stop() waits for it
      for ever. */
  lemma {:induction false} HeldForever(s: State, es: seq<Event>, t: Thread)
    requires s.kind.Pool? && !s.running && NobodyTakes(s) && IsHeld(s, t)
    ensures IsHeld(Run(s, es), t) && PcOf(Run(s, es), t) != Exited
    decreases |es|
  {
    if es != [] {
      StepKeepsHeld(s, es[0], t);
      HeldForever(Step(s, es[0]), es[1..], t);
    }
  }

  lemma StepKeepsHeld(s: State, e: Event, t: Thread)
    requires s.kind.Pool? && !s.running && NobodyTakes(s) && IsHeld(s, t)
    ensures var u := Step(s, e); u.kind == s.kind && !u.running && NobodyTakes(u) && IsHeld(u, t)
  {
  }

  lemma StepKeepsNobody(s: State, e: Event)
    requires s.kind.Pool? && !s.running && NobodyTakes(s)
    ensures var u := Step(s, e); u.kind == s.kind && !u.running && NobodyTakes(u)
  {
  }

  lemma {:induction false} OnceHeldNeverExits(s: State, es: seq<Event>, t: Thread)
    requires s.kind.Pool? && !s.running && NobodyTakes(s) && !NeverHeld(s, es, t)
    ensures PcOf(Run(s, es), t) != Exited
    decreases |es|
  {
    if es[0] == Go(t) && IsHeld(s, t) {
      HeldForever(s, es, t);
    } else {
      StepKeepsNobody(s, es[0]);
      OnceHeldNeverExits(Step(s, es[0]), es[1..], t);
    }
  }

  /** Once nobody takes, a worker that gets as many steps as its rank has exited if and only if it is never
      its turn while its task calls run() on a full queue. */
  lemma ExitsExactlyWhenNeverHeld(s: State, es: seq<Event>, t: Thread, b: nat)
    requires Inv(s) && s.kind.Pool? && !s.running && IsWorker(s, t) && !s.threads[t].ParkedNotFull?
    requires SmallTasks(s, b) && SmallCalls(es, b) && StepsOf(es, t) >= Rank(s.threads[t], b)
    requires NobodyTakes(s)
    ensures PcOf(Run(s, es), t) == Exited <==> NeverHeld(s, es, t)
  {
    if NeverHeld(s, es, t) {
      WorkersExit(s, es, t, b);
    } else {
      OnceHeldNeverExits(s, es, t);
    }
  }

  // ----- a pool that does not stop -----

  // Client 1 passes a task to run() that calls run() itself; worker 0 takes it.
  function TaskTaken(x: Item): seq<Event> {
    [Call(0, false, x), Go(0)] + [Call(1, true, Item(0, [x])), Go(1)] + [Go(0)]
  }

  // Client 1 passes n more tasks to run().
  function Filling(x: Item, n: nat): seq<Event> {
    if n == 0 then [] else Filling(x, n - 1) + [Call(1, true, x), Go(1)]
  }

  function HangingRun(x: Item, max: nat): seq<Event> {
    TaskTaken(x) + Filling(x, max) + [Stop, Go(0)]
  }

  // Worker 0 is in its task, and n tasks wait.
  ghost predicate InTask(s: State, max: nat, x: Item, n: nat) {
    s.kind == Pool(max) && s.running && |s.queue| == n && s.threads == map[0 := Busy([x]), 1 := Outside]
  }

  lemma TakesTheTask(x: Item, max: nat)
    requires max > 0
    ensures InTask(Run(Start(Pool(max)), TaskTaken(x)), max, x, 0)
  {
    var start, task := Start(Pool(max)), Item(0, [x]);
    var s2 := Step(Step(start, Call(0, false, x)), Go(0));
    RunTwo(start, Call(0, false, x), Go(0));
    assert s2 == State(Pool(max), [], true, map[0 := Getting], [], []);
    var s4 := Run(s2, [Call(1, true, task), Go(1)]);
    PutsFirst(s2, max, task);
    assert Step(s4, Go(0)).threads == map[0 := Busy([x]), 1 := Outside];
    RunConcat(start, [Call(0, false, x), Go(0)], [Call(1, true, task), Go(1)]);
    RunLast(start, [Call(0, false, x), Go(0)] + [Call(1, true, task), Go(1)], Go(0));
  }

  lemma PutsFirst(s: State, max: nat, task: Item)
    requires max > 0 && s == State(Pool(max), [], true, map[0 := Getting], [], [])
    ensures Run(s, [Call(1, true, task), Go(1)]) ==
            State(Pool(max), [task], true, map[0 := Getting, 1 := Outside], [task], [])
  {
    var t := Step(s, Call(1, true, task));
    assert t.threads == map[0 := Getting, 1 := Putting(task, ToClient)];
    assert Step(t, Go(1)).threads == map[0 := Getting, 1 := Outside];
    RunTwo(s, Call(1, true, task), Go(1));
  }

  lemma RunTwo(s: State, e: Event, f: Event)
    ensures Run(s, [e, f]) == Step(Step(s, e), f)
  {
    assert [e, f] == [] + [e] + [f];
    RunLast(s, [] + [e], f);
    RunLast(s, [], e);
  }

  lemma PutsOneMore(s: State, max: nat, x: Item, n: nat)
    requires InTask(s, max, x, n) && n < max
    ensures InTask(Run(s, [Call(1, true, x), Go(1)]), max, x, n + 1)
  {
    var t := Step(s, Call(1, true, x));
    assert t.threads == map[0 := Busy([x]), 1 := Putting(x, ToClient)];
    assert Step(t, Go(1)).threads == map[0 := Busy([x]), 1 := Outside];
    RunTwo(s, Call(1, true, x), Go(1));
  }

  lemma {:induction false} FillsTheQueue(s: State, max: nat, x: Item, n: nat)
    requires InTask(s, max, x, 0) && n <= max
    ensures InTask(Run(s, Filling(x, n)), max, x, n)
  {
    if n > 0 {
      FillsTheQueue(s, max, x, n - 1);
      PutsOneMore(Run(s, Filling(x, n - 1)), max, x, n - 1);
      RunConcat(s, Filling(x, n - 1), [Call(1, true, x), Go(1)]);
    }
  }

  lemma HangsAtLast(s: State, max: nat, x: Item)
    requires InTask(s, max, x, max) && max > 0
    ensures var u := Run(s, [Stop, Go(0)]);
            u.kind == s.kind && !u.running && NobodyTakes(u) && IsHeld(u, 0)
  {
    var t := Step(s, Stop);
    assert t.threads == s.threads && Full(t);
    HeldByRun(t, 0);
    RunTwo(s, Stop, Go(0));
  }

  /** In a pool of any positive maximum, stop() can wait for ever: after this run from the start worker 0
      never exits, whatever happens. */
  lemma StopCanWaitForever(x: Item, max: nat, fs: seq<Event>)
    requires max > 0
    ensures !Run(Start(Pool(max)), HangingRun(x, max)).running
    ensures PcOf(Run(Start(Pool(max)), HangingRun(x, max) + fs), 0) != Exited
  {
    var start := Start(Pool(max));
    var s := Run(start, TaskTaken(x));
    TakesTheTask(x, max);
    FillsTheQueue(s, max, x, max);
    HangsAtLast(Run(s, Filling(x, max)), max, x);
    RunConcat(start, TaskTaken(x), Filling(x, max));
    RunConcat(start, TaskTaken(x) + Filling(x, max), [Stop, Go(0)]);
    RunConcat(start, HangingRun(x, max), fs);
    HeldForever(Run(start, HangingRun(x, max)), fs, 0);
  }
}
