/**
 connector.cc as a state machine: who owns each socket, and when the next attempt is
 made. Sockets are numbered as they are created.
 */
module ConnectorSpec {
  const INIT_RETRY_DELAY_MS := 500
  const MAX_RETRY_DELAY_MS := 30000

  datatype ConnState = Disconnected | Connecting | Connected
  datatype Option<T> = None | Some(value: T)

  // What connect(2) says: under way (or done), worth another try, or hopeless.
  datatype Outcome = UnderWay | Retryable | Hopeless

  datatype State = State(
    wanted: bool,              // connected_
    state: ConnState,          // state_
    channel: Option<nat>,      // channel_, with its socket
    registered: bool,          // the channel is in the poller
    resets: nat,               // resetChannel in pendingFunctors_
    stops: nat,                // stopInLoop in pendingFunctors_
    starts: nat,               // startInLoop in pendingFunctors_
    timers: nat,               // retry timers that have not fired
    delay: int,                // retryDelayMs_
    started: bool,             // start() was called
    created: nat,              // sockets so far
    closed: multiset<nat>,
    handed: multiset<nat>,     // passed to newConnectionCallback_
    delays: seq<int>,          // the delays of the retry timers so far
    fault: bool)               // an assert failed, or there was no channel to remove

  datatype Event =
    | Start | Stop
    | StartInLoop(outcome: Outcome) | StopInLoop | ResetChannel
    | TimerFires(outcome: Outcome)
    | HandleWrite(error: bool, selfConnected: bool) | HandleError

  const NEW := State(false, Disconnected, None, false, 0, 0, 0, 0, INIT_RETRY_DELAY_MS, false, 0,
                     multiset{}, multiset{}, [], false)

  function Min(a: int, b: int): int { if a < b then a else b }

  function Retry(s: State, socket: nat): State {
    var t := s.(closed := s.closed + multiset{socket}, state := Disconnected);
    if s.wanted
    then t.(timers := s.timers + 1, delays := s.delays + [s.delay], delay := Min(s.delay * 2, MAX_RETRY_DELAY_MS))
    else t
  }

  // connecting(): the channel takes the socket.
  function Register(s: State, socket: nat): State {
    s.(state := Connecting, channel := Some(socket), registered := true, fault := s.fault || s.channel.Some?)
  }

  function Connect(s: State, outcome: Outcome): State {
    var socket, t := s.created, s.(created := s.created + 1);
    match outcome
    case UnderWay => Register(t, socket)
    case Retryable => Retry(t, socket)
    case Hopeless => t.(closed := t.closed + multiset{socket})
  }

  function Starting(s: State, outcome: Outcome): State {
    var t := s.(fault := s.fault || !s.state.Disconnected?);
    if s.wanted then Connect(t, outcome) else t
  }

  // removeAndResetChannel(): out of the poller now, destroyed later.
  function RemoveChannel(s: State): State {
    s.(registered := false, resets := s.resets + 1, fault := s.fault || s.channel.None?)
  }

  function SocketOf(s: State): nat {
    if s.channel.Some? then s.channel.value else 0
  }

  function Written(s: State, failed: bool): State {
    var t, socket := RemoveChannel(s), SocketOf(s);
    if failed then Retry(t, socket)
    else
      var u := t.(state := Connected);
      if s.wanted then u.(handed := u.handed + multiset{socket}) else u.(closed := u.closed + multiset{socket})
  }

  function Step(s: State, e: Event): State {
    match e
    case Start => s.(started := true, wanted := true, starts := s.starts + 1)
    case Stop => s.(wanted := false, stops := s.stops + 1)
    case StartInLoop(outcome) => if s.starts == 0 then s else Starting(s.(starts := s.starts - 1), outcome)
    case StopInLoop =>
      if s.stops == 0 then s
      else
        var t := s.(stops := s.stops - 1);
        if s.state.Connecting? then Retry(RemoveChannel(t.(state := Disconnected)), SocketOf(s)) else t
    case ResetChannel => if s.resets == 0 then s else s.(resets := s.resets - 1, channel := None)
    case TimerFires(outcome) =>
      if s.timers == 0 then s else Starting(s.(timers := s.timers - 1), outcome)
    case HandleWrite(error, selfConnected) =>
      if s.state.Connecting? then Written(s, error || selfConnected)
      else if s.registered then s.(fault := s.fault || !s.state.Disconnected?)
      else s
    case HandleError => if s.state.Connecting? then Retry(RemoveChannel(s), SocketOf(s)) else s
  }

  function Run(s: State, es: seq<Event>): State
    decreases |es|
  {
    if es == [] then s else Run(Step(s, es[0]), es[1..])
  }

  // A retry timer makes a new channel while resetChannel is still queued for the one before.
  predicate TooSoon(s: State, e: Event) {
    e.TimerFires? && s.timers > 0 && s.resets > 0 && s.wanted && e.outcome.UnderWay?
  }

  // start() is called at most once.
  predicate StartsOnce(s: State, es: seq<Event>)
    decreases |es|
  {
    es == [] || (!(es[0].Start? && s.started) && StartsOnce(Step(s, es[0]), es[1..]))
  }

  // No attempt is planned, under way or successful, and no channel is left: start() may be called.
  predicate Quiet(s: State) {
    s.starts == 0 && s.timers == 0 && s.state.Disconnected? && s.resets == 0
  }

  // Every start() is called when the connector is quiet, as the first one always is.
  predicate StartsQuietly(s: State, es: seq<Event>)
    decreases |es|
  {
    es == [] || ((es[0].Start? ==> Quiet(s)) && StartsQuietly(Step(s, es[0]), es[1..]))
  }

  lemma StartedOrQuiet(s: State, e: Event)
    requires s.started || Quiet(s)
    ensures Step(s, e).started || Quiet(Step(s, e))
  {
  }

  lemma {:induction false} OneStartIsQuiet(s: State, es: seq<Event>)
    requires s.started || Quiet(s)
    requires StartsOnce(s, es)
    ensures StartsQuietly(s, es)
    decreases |es|
  {
    if es != [] {
      StartedOrQuiet(s, es[0]);
      OneStartIsQuiet(Step(s, es[0]), es[1..]);
    }
  }

  // Every queued resetChannel runs before a retry timer makes the next channel.
  predicate ResetsInTime(s: State, es: seq<Event>)
    decreases |es|
  {
    es == [] || (!TooSoon(s, es[0]) && ResetsInTime(Step(s, es[0]), es[1..]))
  }

  // ----- invariants -----

  // The places where a socket can be; every socket that was created is in exactly one.
  ghost function Places(s: State, socket: nat): nat {
    s.closed[socket] + s.handed[socket] + if s.state.Connecting? && s.channel == Some(socket) then 1 else 0
  }

  ghost predicate Conserved(s: State) {
    forall socket: nat :: Places(s, socket) == if socket < s.created then 1 else 0
  }

  // At most one attempt is under way or planned.
  ghost predicate OneAttempt(s: State) {
    && s.starts + s.timers + (if s.state.Connecting? then 1 else 0) <= 1
    && (!s.started ==> s.starts == 0 && s.timers == 0 && s.state.Disconnected?)
    && (s.state.Connected? ==> s.starts == 0 && s.timers == 0)
    && (s.starts > 0 ==> s.resets == 0)
  }

  ghost predicate ChannelRight(s: State) {
    && !s.fault
    && (s.registered <==> s.state.Connecting?)
    && (s.registered ==> s.channel.Some?)
    && s.resets == (if s.channel.Some? && !s.registered then 1 else 0)
    && (!s.started ==> s.channel.None?)
  }

  function Pow2(k: nat): nat { if k == 0 then 1 else 2 * Pow2(k - 1) }

  function DelayOf(k: nat): int { Min(INIT_RETRY_DELAY_MS * Pow2(k), MAX_RETRY_DELAY_MS) }

  ghost predicate BacksOff(s: State) {
    && s.delay == DelayOf(|s.delays|)
    && forall k :: 0 <= k < |s.delays| ==> s.delays[k] == DelayOf(k)
  }

  ghost predicate Inv(s: State) {
    Conserved(s) && OneAttempt(s) && ChannelRight(s) && BacksOff(s)
  }

  lemma RetryBacksOff(s: State, socket: nat)
    requires BacksOff(s)
    ensures BacksOff(Retry(s, socket))
  {
  }

  lemma ConnectKeeps(s: State, outcome: Outcome)
    requires Inv(s) && s.started && s.state.Disconnected? && s.starts == 0 && s.timers == 0
    requires outcome.UnderWay? ==> s.resets == 0
    ensures Inv(Connect(s, outcome))
  {
    var t := Connect(s, outcome);
    RetryBacksOff(s.(created := s.created + 1), s.created);
    forall socket: nat
      ensures Places(t, socket) == if socket < t.created then 1 else 0
    {
      assert Places(s, socket) == if socket < s.created then 1 else 0;
    }
  }

  // The socket leaves the channel, and is closed, with or without another attempt, or handed over.
  lemma ReleaseKeeps(s: State, t: State)
    requires Inv(s) && s.state.Connecting?
    requires t == Retry(RemoveChannel(s), SocketOf(s)) || t == Written(s, false)
    ensures Inv(t)
  {
    RetryBacksOff(RemoveChannel(s), SocketOf(s));
    forall socket: nat
      ensures Places(t, socket) == if socket < t.created then 1 else 0
    {
      assert Places(s, socket) == if socket < s.created then 1 else 0;
    }
  }

  // Sockets stay where they are if only the queues and the flags change.
  lemma SamePlaces(s: State, t: State)
    requires Conserved(s) && t.created == s.created && t.closed == s.closed && t.handed == s.handed
    requires t.state == s.state && (s.state.Connecting? ==> t.channel == s.channel)
    ensures Conserved(t)
  {
    forall socket: nat ensures Places(t, socket) == if socket < t.created then 1 else 0 {
      assert Places(t, socket) == Places(s, socket);
    }
  }

  lemma StepKeeps(s: State, e: Event)
    requires Inv(s) && !TooSoon(s, e) && (e.Start? ==> Quiet(s))
    ensures Inv(Step(s, e))
  {
    match e
    case StartInLoop(outcome) =>
      if s.starts > 0 {
        var t := s.(starts := s.starts - 1);
        SamePlaces(s, t);
        if s.wanted {
          ConnectKeeps(t, outcome);
        }
      }
    case TimerFires(outcome) =>
      if s.timers > 0 {
        var t := s.(timers := s.timers - 1);
        SamePlaces(s, t);
        if s.wanted {
          ConnectKeeps(t, outcome);
        }
      }
    case StopInLoop =>
      if s.stops > 0 {
        var t := s.(stops := s.stops - 1);
        SamePlaces(s, t);
        if s.state.Connecting? {
          ReleaseKeeps(t, Retry(RemoveChannel(t), SocketOf(t)));
          assert Step(s, e) == Retry(RemoveChannel(t), SocketOf(t));
        }
      }
    case HandleWrite(error, selfConnected) =>
      if s.state.Connecting? {
        ReleaseKeeps(s, Step(s, e));
      }
    case HandleError =>
      if s.state.Connecting? {
        ReleaseKeeps(s, Step(s, e));
      }
    case Start => SamePlaces(s, Step(s, e));
    case Stop => SamePlaces(s, Step(s, e));
    case ResetChannel => SamePlaces(s, Step(s, e));
  }

  // A failed assert is not forgotten.
  lemma FaultStays(s: State, e: Event)
    requires s.fault
    ensures Step(s, e).fault
  {
  }

  lemma {:induction false} RunFaultStays(s: State, es: seq<Event>)
    requires s.fault
    ensures Run(s, es).fault
    decreases |es|
  {
    if es != [] {
      FaultStays(s, es[0]);
      RunFaultStays(Step(s, es[0]), es[1..]);
    }
  }

  lemma {:induction false} RunKeeps(s: State, es: seq<Event>)
    requires Inv(s) && StartsQuietly(s, es)
    ensures Inv(Run(s, es)) <==> ResetsInTime(s, es)
    ensures Run(s, es).fault <==> !ResetsInTime(s, es)
    decreases |es|
  {
    if es != [] {
      var t := Step(s, es[0]);
      if TooSoon(s, es[0]) {
        RunFaultStays(t, es[1..]);
      } else {
        StepKeeps(s, es[0]);
        RunKeeps(t, es[1..]);
      }
    }
  }

  /** Over any run in which start() is called when the connector is quiet, once in particular, and stop() any
      number of times: every socket is owned, closed once or handed over once, at most one
      retry timer is outstanding, the k-th one has the capped doubling delay, and no assert fails. */
  lemma SocketsConserved(es: seq<Event>)
    requires StartsQuietly(NEW, es) && ResetsInTime(NEW, es)
    ensures var s := Run(NEW, es);
            && (forall socket: nat :: Places(s, socket) == if socket < s.created then 1 else 0)
            && s.timers <= 1 && !s.fault
            && (forall k :: 0 <= k < |s.delays| ==> s.delays[k] == Min(500 * Pow2(k), 30000))
  {
    assert Inv(NEW);
    RunKeeps(NEW, es);
  }

  /** And the order is needed: an assert of startInLoop, connecting or handleWrite fails in a run exactly
      if some retry timer makes a channel too soon. */
  lemma AssertFailsExactlyWhenTooSoon(es: seq<Event>)
    requires StartsQuietly(NEW, es)
    ensures Run(NEW, es).fault <==> !ResetsInTime(NEW, es)
  {
    assert Inv(NEW);
    RunKeeps(NEW, es);
  }

  /** Once connected, nothing more is opened, closed or handed over. */
  lemma {:induction false} HandedOverIsFinal(s: State, es: seq<Event>)
    requires Inv(s) && s.started && s.state.Connected? && StartsQuietly(s, es) && ResetsInTime(s, es)
    ensures var t := Run(s, es);
            t.state.Connected? && t.created == s.created && t.handed == s.handed && t.closed == s.closed
    decreases |es|
  {
    if es != [] {
      StepKeeps(s, es[0]);
      HandedOverIsFinal(Step(s, es[0]), es[1..]);
    }
  }

  // Nothing is handed over before the connection is made, and then one socket at most.
  ghost predicate OneHanded(s: State) {
    |s.handed| <= if s.state.Connected? then 1 else 0
  }

  lemma StepHandsOne(s: State, e: Event)
    requires Inv(s) && OneHanded(s) && !TooSoon(s, e) && (e.Start? ==> Quiet(s))
    ensures OneHanded(Step(s, e))
  {
  }

  lemma {:induction false} RunHandsOne(s: State, es: seq<Event>)
    requires Inv(s) && OneHanded(s) && StartsQuietly(s, es) && ResetsInTime(s, es)
    ensures OneHanded(Run(s, es))
    decreases |es|
  {
    if es != [] {
      StepKeeps(s, es[0]);
      StepHandsOne(s, es[0]);
      RunHandsOne(Step(s, es[0]), es[1..]);
    }
  }

  /** At most one socket is ever handed over. */
  lemma HandedOverOnce(es: seq<Event>)
    requires StartsQuietly(NEW, es) && ResetsInTime(NEW, es)
    ensures |Run(NEW, es).handed| <= 1
  {
    assert Inv(NEW);
    RunHandsOne(NEW, es);
  }

  lemma StartKeepsExactlyWhenQuiet(s: State)
    requires Inv(s)
    ensures Inv(Step(s, Start)) <==> Quiet(s)
  {
    SamePlaces(s, Step(s, Start));
  }

  // What a start() can lead to when the connector is not quiet: at the latest its second event fails an assert.
  function Clash(s: State): seq<Event> {
    if !s.state.Disconnected? || s.resets > 0 then [StartInLoop(UnderWay)]
    else if s.starts > 0 then [StartInLoop(UnderWay), StartInLoop(UnderWay)]
    else [StartInLoop(UnderWay), TimerFires(Retryable)]
  }

  lemma ClashFaults(s: State)
    requires Inv(s) && !Quiet(s)
    ensures var t := Step(s, Start); StartsOnce(t, Clash(s)) && ResetsInTime(t, Clash(s)) && Run(t, Clash(s)).fault
  {
    var t, es := Step(s, Start), Clash(s);
    var u := Step(t, es[0]);
    assert Run(t, es) == Run(u, es[1..]);
    if |es| == 1 {
      assert es[1..] == [];
    } else {
      assert es[1..] == [es[1]] && [es[1]][1..] == [];
      assert Run(u, [es[1]]) == Step(u, es[1]);
    }
  }

  /** A start(), second ones in particular: no assert can fail afterwards, whatever happens in the right order
      and without a further start(), if and only if the connector was quiet. */
  lemma SecondStart(s: State)
    requires Inv(s)
    ensures var t := Step(s, Start);
            (forall es :: StartsOnce(t, es) && ResetsInTime(t, es) ==> !Run(t, es).fault) <==> Quiet(s)
  {
    var t := Step(s, Start);
    if Quiet(s) {
      StartKeepsExactlyWhenQuiet(s);
      forall es | StartsOnce(t, es) && ResetsInTime(t, es) ensures !Run(t, es).fault {
        OneStartIsQuiet(t, es);
        RunKeeps(t, es);
      }
    } else {
      ClashFaults(s);
    }
  }

  // The order matters: a resetChannel that runs after the retry has begun destroys the new channel,
  // and its socket is nowhere.
  lemma LateResetLosesASocket()
    ensures var s := Run(NEW, [Start, StartInLoop(UnderWay), HandleError, TimerFires(UnderWay), ResetChannel]);
            s.created == 2 && Places(s, 1) == 0 && s.fault
  {
  }
}
