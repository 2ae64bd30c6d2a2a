/**
 What the monitors do for their users, in terms of the number of items: a put completes
 exactly when there is room, a get exactly when there is an item, and nothing else moves.
 */
module MonitorProgress {
  import opened MonitorSpec

  // ----- single critical sections -----

  // Every thread but t is where it was, except for those that the condition wakes.
  ghost predicate OthersStay(s: State, u: State, t: Thread, wakesGetters: bool, wakesPutters: bool) {
    forall v :: v != t ==>
      match PcOf(s, v)
      case ParkedNotEmpty => PcOf(u, v) == if wakesGetters then Getting else ParkedNotEmpty
      case ParkedNotFull(x, back) => PcOf(u, v) == if wakesPutters then Putting(x, back) else ParkedNotFull(x, back)
      case pc => PcOf(u, v) == pc
  }

  // The item is at the back, whoever waited for one is awake, and the thread goes on.
  ghost predicate Appended(s: State, u: State, t: Thread, x: Item, back: Back) {
    && u.queue == s.queue + [x] && u.put == s.put + [x] && u.taken == s.taken
    && u.kind == s.kind && u.running == s.running
    && PcOf(u, t) == (match back case ToClient => Outside case ToTask(rest) => Busy(rest))
    && OthersStay(s, u, t, true, false)
  }

  // The thread is there now, and nothing else has changed.
  ghost predicate OnlyMoved(s: State, u: State, t: Thread, pc: Pc) {
    && u == s.(threads := u.threads) && PcOf(u, t) == pc && OthersStay(s, u, t, false, false)
  }

  lemma OnUnboundedPut(s: State, t: Thread, x: Item, back: Back)
    requires s.kind.Unbounded? && PcOf(s, t) == Putting(x, back)
    ensures Appended(s, Step(s, Go(t)), t, x, back)
  {
  }

  /** put() on a bounded queue: with fewer items than the capacity it appends, otherwise it sleeps. */
  lemma OnBoundedPut(s: State, t: Thread, x: Item, back: Back)
    requires s.kind.Bounded? && PcOf(s, t) == Putting(x, back)
    ensures var u := Step(s, Go(t));
            if |s.queue| < s.kind.cap then Appended(s, u, t, x, back)
            else OnlyMoved(s, u, t, ParkedNotFull(x, back))
  {
  }

  /** run(): the same with the maximum of the pool, where 0 means that there is none. */
  lemma OnPoolPut(s: State, t: Thread, x: Item, back: Back)
    requires s.kind.Pool? && PcOf(s, t) == Putting(x, back)
    ensures var u := Step(s, Go(t));
            if s.kind.max == 0 || |s.queue| < s.kind.max then Appended(s, u, t, x, back)
            else OnlyMoved(s, u, t, ParkedNotFull(x, back))
  {
  }

  /** get() and take(): the front item if there is one, and with a bound whoever waited for room is awake;
      without an item the thread sleeps, or in a stopped pool goes back to its loop. */
  lemma OnGet(s: State, t: Thread)
    requires PcOf(s, t) == Getting
    ensures var u := Step(s, Go(t));
            if s.queue != [] then
              && u.queue == s.queue[1..] && u.taken == s.taken + [s.queue[0]] && u.put == s.put
              && u.kind == s.kind && u.running == s.running
              && PcOf(u, t) == (if s.kind.Pool? then Busy(s.queue[0].puts) else Outside)
              && OthersStay(s, u, t, false, s.kind.Bounded? || (s.kind.Pool? && s.kind.max > 0))
            else OnlyMoved(s, u, t, if s.running then ParkedNotEmpty else Testing)
  {
  }

  /** The loop of a worker: it tests running_ before every task, and does its task's calls of run() in order. */
  lemma OnWorker(s: State, t: Thread)
    ensures PcOf(s, t) == Testing ==> OnlyMoved(s, Step(s, Go(t)), t, if s.running then Getting else Exited)
    ensures PcOf(s, t) == Busy([]) ==> OnlyMoved(s, Step(s, Go(t)), t, Testing)
    ensures PcOf(s, t).Busy? && PcOf(s, t).rest != [] ==>
              OnlyMoved(s, Step(s, Go(t)), t, Putting(PcOf(s, t).rest[0], ToTask(PcOf(s, t).rest[1..])))
  {
  }

  /** A thread that is idle can call put() or get(), or in a pool become a worker. */
  lemma OnCall(s: State, t: Thread, x: Item)
    requires PcOf(s, t).Outside?
    ensures OnlyMoved(s, Step(s, Call(t, true, x)), t, Putting(x, ToClient))
    ensures OnlyMoved(s, Step(s, Call(t, false, x)), t, if s.kind.Pool? then Testing else Getting)
  {
  }

  /** A thread that wakes for no reason tries again. */
  lemma OnSpurious(s: State, t: Thread)
    ensures PcOf(s, t).ParkedNotEmpty? ==> OnlyMoved(s, Step(s, Spurious(t)), t, Getting)
    ensures PcOf(s, t).ParkedNotFull? ==>
              OnlyMoved(s, Step(s, Spurious(t)), t, Putting(PcOf(s, t).item, PcOf(s, t).back))
  {
  }

  /** stop() wakes every worker that sleeps for a task, and moves nobody else. */
  lemma OnStop(s: State)
    requires s.kind.Pool?
    ensures var u := Step(s, Stop);
            && u == s.(running := false, threads := u.threads)
            && forall t :: PcOf(u, t) == if PcOf(s, t).ParkedNotEmpty? then Getting else PcOf(s, t)
  {
  }

  // ----- over runs -----

  /** In every interleaving, a thread sleeps for room only when there are exactly as many items as the capacity
      allows, and in a queue without a bound never. */
  lemma AsleepMeansAtCapacity(kind: Kind, es: seq<Event>, t: Thread)
    requires PcOf(Run(Start(kind), es), t).ParkedNotFull?
    ensures var n := |Run(Start(kind), es).queue|;
            match kind
            case Unbounded => false
            case Bounded(cap) => n == cap
            case Pool(max) => max > 0 && n == max
  {
    RunKeeps(Start(kind), es);
  }

  // The item that an event inserts.
  function PutBy(s: State, e: Event): seq<Item> {
    match e
    case Go(t) =>
      (match PcOf(s, t)
       case Putting(x, _) =>
         (match s.kind
          case Unbounded => [x]
          case Bounded(cap) => if |s.queue| < cap then [x] else []
          case Pool(max) => if max == 0 || |s.queue| < max then [x] else [])
       case _ => [])
    case _ => []
  }

  function AllPut(s: State, es: seq<Event>): seq<Item>
    decreases |es|
  {
    if es == [] then [] else PutBy(s, es[0]) + AllPut(Step(s, es[0]), es[1..])
  }

  lemma StepPuts(s: State, e: Event)
    ensures Step(s, e).put == s.put + PutBy(s, e)
  {
    assert s.put + [] == s.put;
  }

  lemma {:induction false} RunPuts(s: State, es: seq<Event>)
    ensures Run(s, es).put == s.put + AllPut(s, es)
    decreases |es|
  {
    if es != [] {
      StepPuts(s, es[0]);
      RunPuts(Step(s, es[0]), es[1..]);
    }
  }

  /** Items removed, then items queued, are the items of the puts that found room, in that order. */
  lemma TakenThenQueued(kind: Kind, es: seq<Event>)
    ensures var s := Run(Start(kind), es); s.taken + s.queue == AllPut(Start(kind), es)
  {
    RunKeeps(Start(kind), es);
    RunPuts(Start(kind), es);
    assert [] + AllPut(Start(kind), es) == AllPut(Start(kind), es);
  }
}
