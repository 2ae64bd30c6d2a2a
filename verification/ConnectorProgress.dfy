/**
 What a connector does for its users: every outcome of an attempt has its answer, a wanted
 connection is tried for until it is there, and a stopped connector opens nothing more.
 */
module ConnectorProgress {
  import opened ConnectorSpec

  // ----- single events -----

  // What an attempt has made of s, apart from the functor or timer that brought it: a socket was opened, and
  // then registered with a new channel, closed behind a retry timer, or just closed.
  ghost predicate Attempted(s: State, t: State, outcome: Outcome) {
    var socket := s.created;
    && t.created == s.created + 1 && t.handed == s.handed && t.resets == s.resets && t.wanted == s.wanted
    && t.stops == s.stops && t.started == s.started
    && match outcome
       case UnderWay =>
         && t.state.Connecting? && t.channel == Some(socket) && t.registered
         && t.closed == s.closed && t.delays == s.delays && t.delay == s.delay
       case Retryable =>
         && t.state.Disconnected? && t.channel == s.channel && t.registered == s.registered
         && t.closed == s.closed + multiset{socket} && t.delays == s.delays + [s.delay]
       case Hopeless =>
         && t.state == s.state && t.channel == s.channel && t.registered == s.registered
         && t.closed == s.closed + multiset{socket} && t.delays == s.delays && t.delay == s.delay
  }

  function RetryTimers(outcome: Outcome): nat { if outcome.Retryable? then 1 else 0 }

  /** startInLoop as queued by start(): an attempt if the connection is still wanted. */
  lemma StartInLoopAttempts(s: State, outcome: Outcome)
    requires s.starts > 0
    ensures var t := Step(s, StartInLoop(outcome));
            && t.starts == s.starts - 1
            && if s.wanted then Attempted(s, t, outcome) && t.timers == s.timers + RetryTimers(outcome)
               else t == s.(starts := s.starts - 1, fault := t.fault)
  {
  }

  /** The same when a retry timer goes off. */
  lemma TimerAttempts(s: State, outcome: Outcome)
    requires s.timers > 0
    ensures var t := Step(s, TimerFires(outcome));
            && t.starts == s.starts
            && if s.wanted then Attempted(s, t, outcome) && t.timers == s.timers - 1 + RetryTimers(outcome)
               else t == s.(timers := s.timers - 1, fault := t.fault)
  {
  }

  // The channel has given up its socket, which was closed, and there is another attempt if one is wanted.
  ghost predicate Retried(s: State, t: State, socket: nat) {
    && t.state.Disconnected? && !t.registered && t.resets == s.resets + 1
    && t.closed == s.closed + multiset{socket} && t.handed == s.handed && t.created == s.created
    && t.wanted == s.wanted && t.starts == s.starts
    && t.timers == (if s.wanted then s.timers + 1 else s.timers)
    && t.delays == if s.wanted then s.delays + [s.delay] else s.delays
  }

  /** handleWrite in kConnecting: with an error, or connected to itself, the attempt is retried; otherwise the
      connection is there, and its socket is handed over if it is still wanted, and closed if not. */
  lemma HandleWriteDecides(s: State, error: bool, selfConnected: bool)
    requires s.state.Connecting? && s.channel.Some?
    ensures var t, socket := Step(s, HandleWrite(error, selfConnected)), s.channel.value;
            if error || selfConnected then Retried(s, t, socket)
            else
              && t.state.Connected? && !t.registered && t.resets == s.resets + 1
              && t.timers == s.timers && t.delays == s.delays && t.created == s.created && t.wanted == s.wanted
              && t.handed == (if s.wanted then s.handed + multiset{socket} else s.handed)
              && t.closed == if s.wanted then s.closed else s.closed + multiset{socket}
  {
  }

  lemma HandleErrorRetries(s: State)
    requires s.state.Connecting? && s.channel.Some?
    ensures Retried(s, Step(s, HandleError), s.channel.value)
  {
  }

  lemma StopInLoopGivesUp(s: State)
    requires s.stops > 0 && s.state.Connecting? && s.channel.Some?
    ensures var t := Step(s, StopInLoop); Retried(s, t, s.channel.value) && t.stops == s.stops - 1
  {
  }

  /** Outside kConnecting the handlers and stopInLoop leave sockets, timers and the channel alone. */
  lemma OtherwiseNothing(s: State, error: bool, selfConnected: bool)
    requires !s.state.Connecting?
    ensures Step(s, HandleError) == s
    ensures var t := Step(s, HandleWrite(error, selfConnected)); t == s.(fault := t.fault)
    ensures s.stops > 0 ==> Step(s, StopInLoop) == s.(stops := s.stops - 1)
  {
  }

  /** start() and stop() set what is wanted and queue their second half; resetChannel drops the channel. */
  lemma FlagsAndFunctors(s: State)
    ensures Step(s, Start) == s.(started := true, wanted := true, starts := s.starts + 1)
    ensures Step(s, Stop) == s.(wanted := false, stops := s.stops + 1)
    ensures s.resets > 0 ==> Step(s, ResetChannel) == s.(resets := s.resets - 1, channel := None)
  {
  }

  // ----- over runs -----

  predicate Hopeful(e: Event) {
    match e
    case Start => false
    case Stop => false
    case StartInLoop(outcome) => !outcome.Hopeless?
    case TimerFires(outcome) => !outcome.Hopeless?
    case _ => true
  }

  // An attempt is queued, planned, under way or has succeeded, and in the last case its socket was handed over.
  ghost predicate Trying(s: State) {
    && s.started && s.wanted && s.stops == 0
    && s.starts + s.timers + (if s.state.Connecting? then 1 else 0) + (if s.state.Connected? then 1 else 0) == 1
    && |s.handed| == if s.state.Connected? then 1 else 0
  }

  lemma StepKeepsTrying(s: State, e: Event)
    requires Inv(s) && Trying(s) && Hopeful(e)
    ensures Trying(Step(s, e))
  {
  }

  lemma {:induction false} RunKeepsTrying(s: State, es: seq<Event>)
    requires Inv(s) && Trying(s) && ResetsInTime(s, es) && forall e :: e in es ==> Hopeful(e)
    ensures Trying(Run(s, es))
    decreases |es|
  {
    if es != [] {
      assert es[0] in es && forall e :: e in es[1..] ==> e in es;
      StepKeeps(s, es[0]);
      StepKeepsTrying(s, es[0]);
      RunKeepsTrying(Step(s, es[0]), es[1..]);
    }
  }

  /** After start(), whatever goes wrong short of a hopeless errno and without a stop(): another attempt is
      always queued, planned or under way, until the connection is there and has been handed over. */
  lemma KeepsTrying(es: seq<Event>)
    requires ResetsInTime(Step(NEW, Start), es) && forall e :: e in es ==> Hopeful(e)
    ensures Trying(Run(Step(NEW, Start), es))
  {
    assert Inv(NEW) && Quiet(NEW);
    StepKeeps(NEW, Start);
    RunKeepsTrying(Step(NEW, Start), es);
  }

  // Not wanted, and nothing under way.
  predicate Stopped(s: State) {
    !s.wanted && !s.state.Connecting?
  }

  /** stop() and its stopInLoop stop the connector whatever it was doing. */
  lemma StopStops(s: State)
    ensures Stopped(Step(Step(s, Stop), StopInLoop))
  {
  }

  /** And a stopped connector opens and hands over nothing more before the next start(). */
  lemma {:induction false} StoppedIsFinal(s: State, es: seq<Event>)
    requires Stopped(s) && Start !in es
    ensures var t := Run(s, es);
            Stopped(t) && t.created == s.created && t.handed == s.handed && t.closed == s.closed
    decreases |es|
  {
    if es != [] {
      assert es[0] in es && forall e :: e in es[1..] ==> e in es;
      StoppedStep(s, es[0]);
      StoppedIsFinal(Step(s, es[0]), es[1..]);
    }
  }

  lemma StoppedStep(s: State, e: Event)
    requires Stopped(s) && e != Start
    ensures var t := Step(s, e);
            Stopped(t) && t.created == s.created && t.handed == s.handed && t.closed == s.closed
  {
  }
}
