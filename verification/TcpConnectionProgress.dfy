/**
 What a connection does for its users: what is sent reaches the socket as far as the
 socket takes it, what is left is written when the socket is writable, and completion
 and shutdown come when they are due.
 */
module TcpConnectionProgress {
  import opened Bytes
  import opened TcpConnectionSpec

  // ----- what is sent -----

  // The data that an event brings, if it takes effect.
  function SentBy(s: State, e: Event): seq<Byte> {
    match e
    case Send(data, _) => if s.state.Connected? then data else []
    case SendInLoop(data, _) => data
    case _ => []
  }

  function AllSent(s: State, es: seq<Event>): seq<Byte>
    decreases |es|
  {
    if es == [] then [] else SentBy(s, es[0]) + AllSent(Step(s, es[0]), es[1..])
  }

  lemma SendingGives(s: State, data: seq<Byte>, result: WriteResult)
    ensures Sending(s, data, result).given == s.given + data
  {
  }

  lemma StepGivesWhatIsSent(s: State, e: Event)
    ensures Step(s, e).given == s.given + SentBy(s, e)
  {
    match e
    case Send(data, result) => SendingGives(s, data, Kernel(result, s.shutdowns));
    case SendInLoop(data, result) => SendingGives(s, data, Kernel(result, s.shutdowns));
    case _ => assert s.given + [] == s.given;
  }

  lemma {:induction false} GivenIsWhatWasSent(s: State, es: seq<Event>)
    ensures Run(s, es).given == s.given + AllSent(s, es)
    decreases |es|
  {
    if es != [] {
      StepGivesWhatIsSent(s, es[0]);
      GivenIsWhatWasSent(Step(s, es[0]), es[1..]);
    }
  }

  /** Over every run: what the socket took, then what is buffered, is what was sent, in order. */
  lemma OutputIsWhatWasSent(mark: nat, notify: bool, es: seq<Event>)
    ensures var s := Run(Start(mark, notify), es); s.accepted + s.output == AllSent(Start(mark, notify), es)
  {
    OutputConserved(mark, notify, es);
    GivenIsWhatWasSent(Start(mark, notify), es);
    assert [] + AllSent(Start(mark, notify), es) == AllSent(Start(mark, notify), es);
  }

  // ----- one event -----

  // The notices of a step that makes the output buffer grow.
  predicate OnlyHighWater(s: State, t: State) {
    t.notices == if |s.output| < s.mark <= |t.output| then s.notices + [HighWater(|t.output|)] else s.notices
  }

  /** A send with nothing pending: the socket gets the data at once, what it does not take is buffered behind
      write interest, and if it takes all there is one completion notice. */
  lemma SendWritesAtOnce(s: State, data: seq<Byte>, n: nat)
    requires !s.writing && s.output == [] && s.shutdowns == 0 && n <= |data|
    ensures var t := Step(s, SendInLoop(data, Wrote(n)));
            && t.accepted == s.accepted + data[..n] && t.output == data[n..]
            && (t.writing <==> n < |data|)
            && (if n < |data| then OnlyHighWater(s, t)
                else t.notices == if s.notify then s.notices + [WriteComplete] else s.notices)
  {
    assert data[n..] == [] <==> n == |data|;
    assert [] + data[n..] == data[n..];
  }

  /** A send whose direct write fails, with any errno, buffers all of it and tells of no completion. */
  lemma FailedSendBuffers(s: State, data: seq<Byte>, errno: int)
    requires !s.writing && s.output == [] && data != []
    ensures var t := Step(s, SendInLoop(data, Fails(errno)));
            t.accepted == s.accepted && t.output == data && t.writing && OnlyHighWater(s, t)
  {
    assert data[0..] == data && [] + data == data && s.accepted + data[..0] == s.accepted;
  }

  /** A send behind pending data is buffered whole. */
  lemma PendingSendBuffers(s: State, data: seq<Byte>, result: WriteResult)
    requires s.writing || s.output != []
    ensures var t := Step(s, SendInLoop(data, result));
            && t.accepted == s.accepted && t.output == s.output + data
            && (t.writing <==> s.writing || data != []) && OnlyHighWater(s, t)
  {
    assert data == [] ==> s.output + data == s.output;
  }

  /** send() itself does this if the connection is established, and nothing otherwise. */
  lemma SendIsSendInLoop(s: State, data: seq<Byte>, result: WriteResult)
    ensures Step(s, Send(data, result)) == if s.state.Connected? then Step(s, SendInLoop(data, result)) else s
  {
  }

  /** handleWrite with write interest on: the socket gets what it takes of the buffered data, in any connection
      state; when all is taken write interest goes off and there is one completion notice. */
  lemma HandleWriteWrites(s: State, n: nat)
    requires s.writing && s.shutdowns == 0 && n <= |s.output|
    ensures var t := Step(s, HandleWrite(Wrote(n)));
            && t.accepted == s.accepted + s.output[..n] && t.output == s.output[n..]
            && (t.writing <==> n < |s.output| || n == 0)
            && t.notices == (if s.notify && n == |s.output| > 0 then s.notices + [WriteComplete] else s.notices)
            && t.shutdowns == if s.state.Disconnecting? && n == |s.output| > 0 then 1 else 0
  {
    assert s.output[n..] == [] <==> n == |s.output|;
    assert n == 0 ==> s.accepted + s.output[..n] == s.accepted && s.output[n..] == s.output;
  }

  /** Otherwise it does nothing: without write interest, or when the write fails. */
  lemma HandleWriteWaits(s: State, result: WriteResult)
    requires !s.writing || result.Fails? || s.shutdowns > 0
    ensures Step(s, HandleWrite(result)) == s
  {
  }

  /** shutdown() takes effect once, on an established connection: in the loop thread SHUT_WR is issued at once
      if nothing is being written, in another thread that is left to a functor. */
  lemma ShutdownBegins(s: State, inLoop: bool)
    ensures var t := Step(s, Shutdown(inLoop));
            if !s.state.Connected? then t == s
            else if inLoop then
              t == s.(state := Disconnecting, asked := true, shutdowns := t.shutdowns)
              && t.shutdowns == if s.writing then s.shutdowns else s.shutdowns + 1
            else t == s.(state := Disconnecting, queuedShutdowns := s.queuedShutdowns + 1)
  {
  }

  lemma QueuedShutdownRuns(s: State)
    requires s.queuedShutdowns > 0
    ensures var t := Step(s, ShutdownInLoop);
            && t.queuedShutdowns == s.queuedShutdowns - 1 && (s.state.Disconnecting? ==> t.asked)
            && t.shutdowns == (if s.writing then s.shutdowns else s.shutdowns + 1)
            && t.state == s.state && t.output == s.output && t.notices == s.notices
  {
  }

  /** A new connection has the mark and the callback it was given, and nothing else yet. */
  lemma NewConnection(mark: nat, notify: bool)
    ensures var s := Start(mark, notify);
            && s.state.Connecting? && s.mark == mark && s.notify == notify && !s.writing && s.output == []
            && s.notices == [] && s.shutdowns == 0 && s.queuedShutdowns == 0 && !s.asked && !s.closed
  {
  }

  /** The life of a connection: established once, and disconnected for good by its close, with the buffer as
      it is. */
  lemma EstablishedThenClosed(s: State)
    ensures Step(s, Establish) == if s.state.Connecting? then s.(state := Connected) else s
    ensures forall e :: e == HandleClose || e == Destroy ==>
              var t := Step(s, e);
              t.state.Disconnected? && !t.writing && t.closed && t.output == s.output && t.notices == s.notices
  {
  }

  // ----- completion -----

  // The socket takes all that this event has to write, and there is something to tell of.
  predicate Completes(s: State, e: Event) {
    && s.shutdowns == 0
    && match e
       case Send(data, Wrote(n)) => s.state.Connected? && !s.writing && s.output == [] && n >= |data|
       case SendInLoop(data, Wrote(n)) => !s.writing && s.output == [] && n >= |data|
       case HandleWrite(Wrote(n)) => s.writing && s.output != [] && n >= |s.output|
       case _ => false
  }

  lemma SendCompletes(s: State, data: seq<Byte>, result: WriteResult)
    ensures var t := Sending(s, data, Kernel(result, s.shutdowns));
            t.notices == s.notices + [WriteComplete] <==> s.notify && Completes(s, SendInLoop(data, result))
  {
    assert s.notices != s.notices + [WriteComplete];
    var k := Kernel(result, s.shutdowns);
    var n := Taken(k, |data|);
    assert data[n..] == [] <==> n == |data|;
    var t := Sending(s, data, k);
    if t.notices != s.notices {
      assert t.notices[|s.notices|].WriteComplete? <==> t.notices == s.notices + [WriteComplete];
    }
  }

  /** A completion notice is queued exactly by the event with which the socket has taken everything. */
  lemma CompletionExactly(s: State, e: Event)
    ensures Step(s, e).notices == s.notices + [WriteComplete] <==> s.notify && Completes(s, e)
  {
    assert s.notices != s.notices + [WriteComplete];
    match e
    case Send(data, result) => SendCompletes(s, data, result);
    case SendInLoop(data, result) => SendCompletes(s, data, result);
    case HandleWrite(result) =>
      var n := Taken(Kernel(result, s.shutdowns), |s.output|);
      assert s.output[n..] == [] <==> n == |s.output|;
    case _ =>
  }

  // ----- draining -----

  function Writes(ns: seq<nat>): seq<Event> {
    if ns == [] then [] else [HandleWrite(Wrote(ns[0]))] + Writes(ns[1..])
  }

  // A socket that would take more takes everything.
  lemma SameAsTaken(s: State, n: nat)
    ensures Step(s, HandleWrite(Wrote(n))) == Step(s, HandleWrite(Wrote(if n < |s.output| then n else |s.output|)))
  {
  }

  lemma OneWrite(s: State, n: nat)
    requires Inv(s) && !s.closed && (s.output != [] ==> s.shutdowns == 0) && n > 0
    ensures var t := Step(s, HandleWrite(Wrote(n)));
            && Inv(t) && !t.closed && (t.output != [] ==> t.shutdowns == 0)
            && |t.output| <= (if s.output == [] then 0 else |s.output| - 1)
            && t.accepted + t.output == s.accepted + s.output
  {
    StepKeeps(s, HandleWrite(Wrote(n)));
    if s.output == [] {
      HandleWriteWaits(s, Wrote(n));
    } else {
      var taken := if n < |s.output| then n else |s.output|;
      SameAsTaken(s, n);
      HandleWriteWrites(s, taken);
      assert s.output == s.output[..taken] + s.output[taken..];
      assert s.accepted + s.output[..taken] + s.output[taken..] == s.accepted + (s.output[..taken] + s.output[taken..]);
    }
  }

  /** As many writable events as there are bytes drain the buffer, if each time the socket takes something. */
  lemma {:induction false} WritesDrain(s: State, ns: seq<nat>)
    requires Inv(s) && !s.closed && (s.output != [] ==> s.shutdowns == 0)
    requires |ns| >= |s.output| && forall n :: n in ns ==> n > 0
    ensures var t := Run(s, Writes(ns));
            t.output == [] && !t.writing && t.accepted == s.accepted + s.output
    decreases |ns|
  {
    if ns == [] {
      assert s.accepted + s.output == s.accepted;
    } else {
      assert ns[0] in ns && forall m :: m in ns[1..] ==> m in ns;
      assert Writes(ns)[0] == HandleWrite(Wrote(ns[0])) && Writes(ns)[1..] == Writes(ns[1..]);
      OneWrite(s, ns[0]);
      WritesDrain(Step(s, HandleWrite(Wrote(ns[0]))), ns[1..]);
    }
  }

  /** So a shutdown that was asked for is made good. */
  lemma ShutdownIsMade(s: State, ns: seq<nat>)
    requires Inv(s) && !s.closed && s.asked && (s.output != [] ==> s.shutdowns == 0)
    requires |ns| >= |s.output| && forall n :: n in ns ==> n > 0
    ensures Run(s, Writes(ns)).shutdowns > 0
  {
    WritesDrain(s, ns);
    RunKeeps(s, Writes(ns));
    WritesKeepOpen(s, ns);
  }

  lemma WritesKeepOpen(s: State, ns: seq<nat>)
    ensures var t := Run(s, Writes(ns)); t.closed == s.closed && (s.asked ==> t.asked)
    decreases |ns|
  {
    if ns != [] {
      assert Writes(ns)[0] == HandleWrite(Wrote(ns[0])) && Writes(ns)[1..] == Writes(ns[1..]);
      WritesKeepOpen(Step(s, HandleWrite(Wrote(ns[0]))), ns[1..]);
    }
  }
}
