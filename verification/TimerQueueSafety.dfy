/**
 What every step of a TimerQueue keeps, and hence what holds in every run: the two
 sets agree, every inserted timer has exactly one owner, and no dead timer is used.
 */
module TimerQueueSafety {
  import opened OrderedTimers
  import opened TimerQueueSpec

  // The expired timers that have not been re-inserted or deleted yet.
  function Batch(s: State): seq<Entry> {
    match s.phase
    case Idle => []
    case Calling(batch, _, _) => batch
    case Resetting(batch, next, _) => if next <= |batch| then batch[next..] else []
  }

  function EntryAt(s: State, a: nat): Entry { Entry(At(s, a).expiration, a) }

  ghost predicate Names(s: State, e: Entry) {
    e.addr in s.heap && s.heap[e.addr].expiration == e.when && e.addr !in s.waiting
  }

  // timers_ and activeTimers_ hold the same timers.
  ghost predicate SetsAgree(s: State) {
    forall id: TimerId :: id in s.active <==>
      id.addr in s.heap && IdAt(s, id.addr) == id && EntryAt(s, id.addr) in s.timers
  }

  // A live timer waits for addTimerInLoop, or is in timers_, or is in the batch, and never in two of them.
  ghost predicate OneOwner(s: State) {
    && (forall e :: e in s.timers ==> Names(s, e) && e !in Batch(s))
    && (forall e :: e in Batch(s) ==> Names(s, e))
    && (forall a :: a in s.waiting ==> a in s.heap)
    && (forall a :: a in s.heap && a !in s.waiting ==>
          EntryAt(s, a) in s.timers || EntryAt(s, a) in Batch(s))
  }

  ghost predicate SequencesUnique(s: State) {
    && (forall a :: a in s.heap ==> 1 <= s.heap[a].sequence <= s.created)
    && (forall a, b :: a in s.heap && b in s.heap && s.heap[a].sequence == s.heap[b].sequence ==> a == b)
  }

  ghost predicate PhaseOk(s: State) {
    match s.phase
    case Idle => true
    case Calling(batch, next, now) =>
      s.calling && next <= |batch| && now <= s.clock && forall e :: e in batch ==> e.when <= now
    case Resetting(batch, next, now) =>
      !s.calling && next <= |batch| && now <= s.clock
  }

  ghost predicate Inv(s: State) {
    && !s.fault
    && Ordered(s.timers)
    && Ordered(Batch(s))
    && SetsAgree(s)
    && OneOwner(s)
    && SequencesUnique(s)
    && PhaseOk(s)
  }

  lemma StartKeeps(garbage: bool, clock: int)
    ensures Inv(Start(garbage, clock))
  {
  }

  // A new timer at a free address changes nothing for the others.
  lemma NewTimerSets(s: State, a: Addr, when: int, repeat: bool, interval: nat)
    requires Inv(s) && a !in s.heap
    ensures var t := NewTimer(s, a, when, repeat, interval);
            SetsAgree(t) && Batch(t) == Batch(s)
  {
    var t := NewTimer(s, a, when, repeat, interval);
    forall id: TimerId
      ensures id in t.active <==>
                id.addr in t.heap && IdAt(t, id.addr) == id && EntryAt(t, id.addr) in t.timers
    {
      assert EntryAt(t, id.addr) in s.timers ==> Names(s, EntryAt(t, id.addr));
    }
  }

  lemma NewTimerOwners(s: State, a: Addr, when: int, repeat: bool, interval: nat)
    requires OneOwner(s) && a !in s.heap
    ensures OneOwner(NewTimer(s, a, when, repeat, interval))
  {
    var t := NewTimer(s, a, when, repeat, interval);
    assert Batch(t) == Batch(s);
    forall e | e in s.timers || e in Batch(s) ensures Names(t, e) {
      assert Names(s, e);
    }
  }

  lemma NewTimerKeeps(s: State, a: Addr, when: int, repeat: bool, interval: nat)
    requires Inv(s)
    ensures Inv(NewTimer(s, a, when, repeat, interval))
  {
    if a !in s.heap {
      NewTimerSets(s, a, when, repeat, interval);
      NewTimerOwners(s, a, when, repeat, interval);
    }
  }

  // insert() of a live timer that is in neither set and not in the batch.
  lemma InsertTimerKeeps(s: State, a: Addr)
    requires !s.fault && Ordered(s.timers) && Ordered(Batch(s)) && SetsAgree(s) && SequencesUnique(s) && PhaseOk(s)
    requires a in s.heap && a !in s.waiting
    requires forall e :: e in s.timers || e in Batch(s) ==> Names(s, e) && e.addr != a
    requires forall e :: e in s.timers ==> e !in Batch(s)
    requires forall b :: b in s.waiting ==> b in s.heap
    requires forall b :: b in s.heap && b !in s.waiting && b != a ==>
               EntryAt(s, b) in s.timers || EntryAt(s, b) in Batch(s)
    ensures Inv(InsertTimer(s, a))
  {
  }

  lemma ArmKeeps(s: State, when: int)
    requires Inv(s)
    ensures Inv(Arm(s, when))
  {
  }

  lemma AddTimerKeeps(s: State, a: Addr)
    requires Inv(s)
    ensures Inv(AddTimerInLoop(s, a))
  {
    if a in s.waiting && !s.phase.Resetting? {
      var t := s.(waiting := s.waiting - {a});
      assert Batch(t) == Batch(s);
      forall e | e in t.timers || e in Batch(t)
        ensures Names(t, e) && e.addr != a
      {
        assert Names(s, e);
      }
      InsertTimerKeeps(t, a);
      ArmKeeps(InsertTimer(t, a), At(t, a).expiration);
    }
  }

  // Deleting a timer of timers_: the two sets still agree, and no other timer changes its owner.
  lemma DeleteActive(s: State, id: TimerId)
    requires Inv(s) && id in s.active && !s.phase.Resetting?
    ensures var t := CancelTimerInLoop(s, id);
            SetsAgree(t) && Batch(t) == Batch(s) && OneOwner(t)
  {
    var t, e := CancelTimerInLoop(s, id), EntryAt(s, id.addr);
    assert e in s.timers && t.timers == Erase(s.timers, e) && Batch(t) == Batch(s);
    assert forall a :: a in t.heap ==> a in s.heap && a != id.addr && EntryAt(t, a) == EntryAt(s, a);
    assert SetsAgree(t) by {
      forall x: TimerId
        ensures x in t.active <==> x.addr in t.heap && IdAt(t, x.addr) == x && EntryAt(t, x.addr) in t.timers
      {
        assert x.addr != id.addr ==> EntryAt(s, x.addr) != e;
      }
    }
    assert OneOwner(t) by {
      forall x | x in t.timers || x in Batch(s) ensures Names(t, x) {
        assert Names(s, x) && x != e;
      }
    }
  }

  lemma CancelKeeps(s: State, id: TimerId)
    requires Inv(s)
    ensures Inv(CancelTimerInLoop(s, id))
  {
    if id in s.active && !s.phase.Resetting? {
      DeleteActive(s, id);
      assert EntryAt(s, id.addr) in s.timers;
    }
  }

  // What getExpired does to the sets, in a state with nothing in the batch.
  lemma TakeDue(s: State)
    requires Inv(s) && s.phase.Idle?
    ensures var t := BeginHandleRead(s);
            && !t.fault && Ordered(t.timers) && Ordered(Batch(t))
            && (forall e :: e in s.timers <==> e in t.timers || e in Batch(t))
            && (forall e :: e in t.timers ==> e !in Batch(t))
            && (forall e :: e in Batch(t) ==> e.when <= s.clock)
  {
    var k := LowerBound(s.timers, Sentry(s.clock));
    SplitOrdered(s.timers, k);
    forall e | e in s.timers[..k]
      ensures e.when <= s.clock && e.addr in s.heap && IdAt(s, e.addr) in s.active
    {
      assert Before(e, Sentry(s.clock)) && Names(s, e) && EntryAt(s, e.addr) == e;
    }
    assert k < |s.timers| ==> s.timers[k] in s.timers && Names(s, s.timers[k]);
  }

  lemma BeginReadSets(s: State)
    requires Inv(s) && s.phase.Idle?
    ensures SetsAgree(BeginHandleRead(s))
  {
    TakeDue(s);
    var t := BeginHandleRead(s);
    forall id: TimerId
      ensures id in t.active <==>
                id.addr in t.heap && IdAt(t, id.addr) == id && EntryAt(t, id.addr) in t.timers
    {
      if id in s.active {
        assert EntryAt(s, id.addr) in Batch(t) <==> exists e :: e in Batch(t) && IdAt(s, e.addr) == id;
      }
    }
  }

  // Splitting the timers in two leaves every timer with one owner.
  lemma SplitKeepsOwners(s: State, t: State)
    requires OneOwner(s) && Batch(s) == [] && t.heap == s.heap && t.waiting == s.waiting
    requires forall e :: e in s.timers <==> e in t.timers || e in Batch(t)
    requires forall e :: e in t.timers ==> e !in Batch(t)
    ensures OneOwner(t)
  {
  }

  lemma BeginReadKeeps(s: State)
    requires Inv(s)
    ensures Inv(BeginHandleRead(s))
  {
    if s.phase.Idle? {
      TakeDue(s);
      BeginReadSets(s);
      SplitKeepsOwners(s, BeginHandleRead(s));
    }
  }

  lemma FireKeeps(s: State)
    requires Inv(s)
    ensures Inv(Fire(s))
  {
    if s.phase.Calling? && s.phase.next < |s.phase.batch| {
      assert s.phase.batch[s.phase.next] in Batch(s);
    }
  }

  lemma EndCallingKeeps(s: State)
    requires Inv(s)
    ensures Inv(EndCalling(s))
  {
  }

  // The timer that reset() looks at next, and what is left of the batch after it.
  lemma BatchHead(s: State)
    requires Inv(s) && s.phase.Resetting? && s.phase.next < |s.phase.batch|
    ensures var e := s.phase.batch[s.phase.next];
            var rest := s.phase.batch[s.phase.next + 1..];
            && Names(s, e) && e !in s.timers && Ordered(rest)
            && (forall x :: x in Batch(s) <==> x == e || x in rest)
            && (forall x :: x in rest || x in s.timers ==> Names(s, x) && x.addr != e.addr)
            && (forall x :: x in s.timers ==> x !in rest)
  {
    var batch, j := s.phase.batch, s.phase.next;
    SplitOrdered(batch[j..], 1);
    assert batch[j..][..1] == [batch[j]] && batch[j..][1..] == batch[j + 1..];
    assert batch[j] in Batch(s);
  }

  lemma DeleteKeeps(s: State)
    requires Inv(s) && s.phase.Resetting? && s.phase.next < |s.phase.batch|
    ensures var a := s.phase.batch[s.phase.next].addr;
            Inv(s.(phase := Resetting(s.phase.batch, s.phase.next + 1, s.phase.now), heap := s.heap - {a}))
  {
    BatchHead(s);
    var a, rest := s.phase.batch[s.phase.next].addr, s.phase.batch[s.phase.next + 1..];
    var t := s.(phase := Resetting(s.phase.batch, s.phase.next + 1, s.phase.now), heap := s.heap - {a});
    assert Batch(t) == rest;
    assert SetsAgree(t) by {
      forall id: TimerId
        ensures id in t.active <==>
                  id.addr in t.heap && IdAt(t, id.addr) == id && EntryAt(t, id.addr) in t.timers
      {
        assert EntryAt(s, a) !in s.timers;
      }
    }
    assert OneOwner(t) by {
      forall e | e in t.timers || e in rest ensures Names(t, e) {
        assert Names(s, e) && e.addr != a;
      }
      forall b | b in t.heap && b !in t.waiting
        ensures EntryAt(t, b) in t.timers || EntryAt(t, b) in rest
      {
        assert EntryAt(t, b) == EntryAt(s, b);
      }
    }
  }

  lemma ReinsertKeeps(s: State)
    requires Inv(s) && s.phase.Resetting? && s.phase.next < |s.phase.batch|
    ensures var a := s.phase.batch[s.phase.next].addr;
            var t := s.(phase := Resetting(s.phase.batch, s.phase.next + 1, s.phase.now));
            Inv(InsertTimer(Restart(t, a, s.phase.now), a))
  {
    BatchHead(s);
    var a := s.phase.batch[s.phase.next].addr;
    var t := s.(phase := Resetting(s.phase.batch, s.phase.next + 1, s.phase.now));
    var u := Restart(t, a, s.phase.now);
    assert Batch(u) == s.phase.batch[s.phase.next + 1..];
    assert SetsAgree(u) by {
      forall id: TimerId
        ensures id in u.active <==>
                  id.addr in u.heap && IdAt(u, id.addr) == id && EntryAt(u, id.addr) in u.timers
      {
        assert id.addr != a ==> EntryAt(u, id.addr) == EntryAt(s, id.addr);
        assert EntryAt(s, a) !in s.timers;
      }
    }
    InsertTimerKeeps(u, a);
  }

  lemma ResetOneKeeps(s: State)
    requires Inv(s)
    ensures Inv(ResetOne(s))
  {
    if s.phase.Resetting? && s.phase.next < |s.phase.batch| {
      BatchHead(s);
      DeleteKeeps(s);
      ReinsertKeeps(s);
    }
  }

  lemma FinishKeeps(s: State)
    requires Inv(s)
    ensures Inv(FinishReset(s))
  {
    if s.phase.Resetting? && s.timers != [] {
      assert s.timers[0] in s.timers;
    }
  }

  lemma StepKeeps(s: State, e: Event)
    requires Inv(s)
    ensures Inv(Step(s, e))
  {
    match e
    case Do(New(a, when, repeat, interval)) => NewTimerKeeps(s, a, when, repeat, interval);
    case Do(Insert(a)) => AddTimerKeeps(s, a);
    case Do(Cancel(id)) => CancelKeeps(s, id);
    case Do(Tick(_)) =>
    case BeginRead => BeginReadKeeps(s);
    case CallNext => FireKeeps(s);
    case EndCalls => EndCallingKeeps(s);
    case ResetNext => ResetOneKeeps(s);
    case Finish => FinishKeeps(s);
  }

  // Sequence numbers are never given out again, whatever happens to addresses.
  lemma NumbersGrow(s: State, e: Event)
    ensures s.created <= Step(s, e).created
  {
  }

  /** Over every run the invariant holds, and no sequence number comes back. */
  lemma {:induction false} RunKeeps(s: State, es: seq<Event>)
    requires Inv(s)
    ensures Inv(Run(s, es)) && s.created <= Run(s, es).created
    decreases |es|
  {
    if es != [] {
      StepKeeps(s, es[0]);
      NumbersGrow(s, es[0]);
      RunKeeps(Step(s, es[0]), es[1..]);
    }
  }
}
