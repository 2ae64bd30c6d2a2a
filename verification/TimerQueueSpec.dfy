/**
 timerqueue.cc as a state machine. The heap maps the address of every live Timer
 to its fields; an address returns to the allocator when its timer is deleted.
 A callback is an arbitrary script of actions, and other threads may allocate
 timers at any moment, also while the loop thread is inside reset().
 */
module TimerQueueSpec {
  import opened OrderedTimers

  datatype Timer = Timer(expiration: int, repeat: bool, interval: nat, sequence: nat)

  // TimerId and ActiveTimer: the pair under which cancellation finds a timer.
  datatype TimerId = TimerId(addr: nat, sequence: nat)

  // A one-shot timerfd. It is readable from its deadline on, until it is read or set again.
  datatype Timerfd = Disarmed | Armed(deadline: int, setAt: int)

  // Where the loop thread is. A batch is what getExpired returned; next counts the
  // callbacks already made, or in Resetting the timers already re-inserted or deleted.
  datatype Phase =
    | Idle
    | Calling(batch: seq<Entry>, next: nat, now: int)
    | Resetting(batch: seq<Entry>, next: nat, now: int)

  // One callback that was made.
  datatype Fired = Fired(id: TimerId, expiration: int, repeat: bool, interval: nat, now: int)

  datatype State = State(
    timers: seq<Entry>,        // timers_
    active: set<TimerId>,      // activeTimers_
    calling: bool,             // callingExpiredTimers_
    canceling: set<TimerId>,   // cancelingTimers_
    heap: map<Addr, Timer>,    // live Timer objects
    created: nat,              // Timer::numCreated_
    fd: Timerfd,
    clock: int,                // Timestamp::now()
    waiting: set<Addr>,          // allocated, addTimerInLoop still to run
    phase: Phase,
    log: seq<Fired>,
    fault: bool)               // a dead timer was used or deleted, or an assert failed

  // What a callback, another functor or another thread may do.
  datatype Action =
    | New(addr: Addr, when: int, repeat: bool, interval: nat)
    | Insert(addr: Addr)
    | Cancel(id: TimerId)
    | Tick(elapsed: nat)

  datatype Event = Do(action: Action) | BeginRead | CallNext | EndCalls | ResetNext | Finish

  // A new queue; the constructor leaves callingExpiredTimers_ as it finds it.
  function Start(garbage: bool, clock: int): State {
    State([], {}, garbage, {}, map[], 0, Disarmed, clock, {}, Idle, [], false)
  }

  // What reading through a pointer gives. A dead pointer gives garbage and is a fault.
  function At(s: State, a: nat): Timer {
    if a in s.heap then s.heap[a] else Timer(0, false, 0, 0)
  }

  function IdAt(s: State, a: nat): TimerId {
    TimerId(a, At(s, a).sequence)
  }

  // howMuchTimeFromNow and resetTimerfd: never less than 100 microseconds away.
  function Arm(s: State, when: int): State {
    var wait := when - s.clock;
    s.(fd := Armed(s.clock + if wait < 100 then 100 else wait, s.clock))
  }

  predicate EarliestChanged(s: State, a: nat) {
    s.timers == [] || At(s, a).expiration < s.timers[0].when
  }

  // insert(): into both sets.
  function InsertTimer(s: State, a: nat): State {
    s.(timers := Add(s.timers, Entry(At(s, a).expiration, a)),
       active := s.active + {IdAt(s, a)},
       fault := s.fault || a !in s.heap)
  }

  function NewTimer(s: State, a: Addr, when: int, repeat: bool, interval: nat): State {
    if a in s.heap then s
    else s.(heap := s.heap[a := Timer(when, repeat, interval, s.created + 1)],
            created := s.created + 1,
            waiting := s.waiting + {a})
  }

  function AddTimerInLoop(s: State, a: Addr): State {
    if a !in s.waiting || s.phase.Resetting? then s
    else
      var t := InsertTimer(s.(waiting := s.waiting - {a}), a);
      if EarliestChanged(s, a) then Arm(t, At(t, a).expiration) else t
  }

  function CancelTimerInLoop(s: State, id: TimerId): State {
    if s.phase.Resetting? then s
    else if id in s.active then
      var e := Entry(At(s, id.addr).expiration, id.addr);
      s.(timers := Erase(s.timers, e),
         heap := s.heap - {id.addr},
         active := s.active - {id},
         fault := s.fault || id.addr !in s.heap || e !in s.timers)
    else if s.calling then s.(canceling := s.canceling + {id})
    else s
  }

  function Act(s: State, x: Action): State {
    match x
    case New(a, when, repeat, interval) => NewTimer(s, a, when, repeat, interval)
    case Insert(a) => AddTimerInLoop(s, a)
    case Cancel(id) => CancelTimerInLoop(s, id)
    case Tick(elapsed) => s.(clock := s.clock + elapsed)
  }

  function ReadFd(fd: Timerfd, clock: int): Timerfd {
    if fd.Armed? && fd.deadline <= clock then Disarmed else fd
  }

  function IdsOf(s: State, batch: seq<Entry>): set<TimerId> {
    set e | e in batch :: IdAt(s, e.addr)
  }

  function Sentry(now: int): Entry { Entry(now, UINTPTR_MAX) }

  // handleRead() up to its first callback: readTimerfd and getExpired.
  function BeginHandleRead(s: State): State {
    if !s.phase.Idle? then s
    else
      var k := LowerBound(s.timers, Sentry(s.clock));
      var batch := s.timers[..k];
      var ids := IdsOf(s, batch);
      s.(fd := ReadFd(s.fd, s.clock),
         timers := s.timers[k..],
         active := s.active - ids,
         calling := true,
         canceling := {},
         phase := Calling(batch, 0, s.clock),
         fault := s.fault
           || !(k == |s.timers| || s.clock < s.timers[k].when)
           || exists e | e in batch :: e.addr !in s.heap || IdAt(s, e.addr) !in s.active)
  }

  function Line(timer: Timer, a: nat, now: int): Fired {
    Fired(TimerId(a, timer.sequence), timer.expiration, timer.repeat, timer.interval, now)
  }

  // One iteration of handleRead's loop, up to the callback's own actions.
  function Fire(s: State): State {
    if !s.phase.Calling? || s.phase.next >= |s.phase.batch| then s
    else
      var a := s.phase.batch[s.phase.next].addr;
      s.(phase := Calling(s.phase.batch, s.phase.next + 1, s.phase.now),
         log := s.log + [Line(At(s, a), a, s.phase.now)],
         fault := s.fault || a !in s.heap)
  }

  function EndCalling(s: State): State {
    if !s.phase.Calling? || s.phase.next < |s.phase.batch| then s
    else s.(calling := false, phase := Resetting(s.phase.batch, 0, s.phase.now))
  }

  // Timer::restart, only reached for a repeating timer.
  function Restart(s: State, a: nat, now: int): State {
    if a in s.heap then s.(heap := s.heap[a := s.heap[a].(expiration := now + s.heap[a].interval)])
    else s.(fault := true)
  }

  // One iteration of reset's loop.
  function ResetOne(s: State): State {
    if !s.phase.Resetting? || s.phase.next >= |s.phase.batch| then s
    else
      var a := s.phase.batch[s.phase.next].addr;
      var t := s.(phase := Resetting(s.phase.batch, s.phase.next + 1, s.phase.now),
                  fault := s.fault || a !in s.heap);
      if At(s, a).repeat && IdAt(s, a) !in s.canceling then
        InsertTimer(Restart(t, a, s.phase.now), a)
      else
        t.(heap := t.heap - {a})
  }

  // The rest of reset: nextExpire.valid() is "positive".
  function FinishReset(s: State): State {
    if !s.phase.Resetting? || s.phase.next < |s.phase.batch| then s
    else
      var t := s.(phase := Idle);
      if s.timers == [] then t
      else
        var first := s.timers[0].addr;
        var u := t.(fault := t.fault || first !in s.heap);
        if At(s, first).expiration > 0 then Arm(u, At(s, first).expiration) else u
  }

  function Step(s: State, e: Event): State {
    match e
    case Do(x) => Act(s, x)
    case BeginRead => BeginHandleRead(s)
    case CallNext => Fire(s)
    case EndCalls => EndCalling(s)
    case ResetNext => ResetOne(s)
    case Finish => FinishReset(s)
  }

  function Run(s: State, es: seq<Event>): State
    decreases |es|
  {
    if es == [] then s else Run(Step(s, es[0]), es[1..])
  }

  lemma RunConcat(s: State, es: seq<Event>, fs: seq<Event>)
    ensures Run(s, es + fs) == Run(Run(s, es), fs)
    decreases |es|
  {
    if es == [] {
      assert es + fs == fs;
    } else {
      assert (es + fs)[1..] == es[1..] + fs;
      RunConcat(Step(s, es[0]), es[1..], fs);
    }
  }

  lemma RunLast(s: State, es: seq<Event>, e: Event)
    ensures Run(s, es + [e]) == Step(Run(s, es), e)
  {
    RunConcat(s, es, [e]);
    assert [e][1..] == [];
  }
}
