/**
 The output path and the half-close of tcpconnection.cc as a state machine, with a
 write(2) that may take any part of what it is given or fail with any errno, and that
 fails for good once SHUT_WR was issued.
 */
module TcpConnectionSpec {
  import opened Bytes

  const EWOULDBLOCK := 11
  const EPIPE := 32
  const ECONNRESET := 104

  datatype ConnState = Connecting | Connected | Disconnecting | Disconnected

  // write(2): it takes a number of bytes, at most all of them, or fails.
  datatype WriteResult = Wrote(n: nat) | Fails(errno: int)

  datatype Notice = WriteComplete | HighWater(size: nat)

  datatype State = State(
    state: ConnState,            // state_
    output: seq<Byte>,           // the readable bytes of outputBuffer_
    writing: bool,               // channel_->isWriting()
    mark: nat,                   // highWaterMark_
    notify: bool,                // writeCompleteCallback_ is set
    queuedShutdowns: nat,        // shutdownInLoop in pendingFunctors_
    notices: seq<Notice>,        // queued notifications
    given: seq<Byte>,            // all data given to sendInLoop
    accepted: seq<Byte>,         // all data the socket took
    shutdowns: nat,              // SHUT_WR calls
    asked: bool,                 // shutdownInLoop has run in kDisconnecting
    closed: bool)                // handleClose or connectDestroyed has run

  datatype Event =
    | Establish
    | Send(data: seq<Byte>, result: WriteResult)         // send() in the loop thread
    | SendInLoop(data: seq<Byte>, result: WriteResult)   // queued by send() in another thread
    | HandleWrite(result: WriteResult)
    | Shutdown(inLoop: bool)
    | ShutdownInLoop                                     // queued by shutdown() in another thread
    | HandleClose
    | Destroy

  function Start(mark: nat, notify: bool): State {
    State(Connecting, [], false, mark, notify, 0, [], [], [], 0, false, false)
  }

  function Taken(result: WriteResult, len: nat): (n: nat)
    ensures n <= len
  {
    match result
    case Wrote(n) => if n <= len then n else len
    case Fails(_) => 0
  }

  // The socket takes nothing after SHUT_WR.
  function Kernel(result: WriteResult, shutdowns: nat): WriteResult {
    if shutdowns > 0 then Fails(EPIPE) else result
  }

  // The test for a broken connection stands inside the test for EWOULDBLOCK.
  function FaultError(result: WriteResult): bool {
    result.Fails? && result.errno == EWOULDBLOCK && (result.errno == EPIPE || result.errno == ECONNRESET)
  }

  // The part of sendInLoop after the direct write: what is left goes to the output buffer.
  function Buffered(s: State, rest: seq<Byte>): State {
    if rest == [] then s
    else
      var size := |s.output| + |rest|;
      var t := if size >= s.mark && |s.output| < s.mark && s.mark != 0
               then s.(notices := s.notices + [HighWater(size)]) else s;
      t.(output := t.output + rest, writing := true)
  }

  // The direct write, when nothing is pending.
  function WrittenDirectly(s: State, data: seq<Byte>, result: WriteResult): State {
    var n := Taken(result, |data|);
    var done := result.Wrote? && n == |data| && s.notify;
    s.(accepted := s.accepted + data[..n],
       notices := if done then s.notices + [WriteComplete] else s.notices)
  }

  function Sending(s: State, data: seq<Byte>, result: WriteResult): State {
    var t := s.(given := s.given + data);
    if !s.writing && s.output == [] then
      var u := WrittenDirectly(t, data, result);
      if FaultError(result) then u else Buffered(u, data[Taken(result, |data|)..])
    else
      Buffered(t, data)
  }

  function ShuttingDown(s: State): State {
    var t := s.(asked := s.asked || s.state.Disconnecting?);
    if !s.writing then t.(shutdowns := t.shutdowns + 1) else t
  }

  function Writing(s: State, result: WriteResult): State {
    if !s.writing then s
    else
      var n := Taken(result, |s.output|);
      if n == 0 then s
      else
        var t := s.(output := s.output[n..], accepted := s.accepted + s.output[..n]);
        if t.output != [] then t
        else
          var u := t.(writing := false, notices := if s.notify then s.notices + [WriteComplete] else s.notices);
          if u.state.Disconnecting? then ShuttingDown(u) else u
  }

  function Close(s: State): State {
    s.(state := Disconnected, writing := false, closed := true)
  }

  function Step(s: State, e: Event): State {
    match e
    case Establish => if s.state.Connecting? then s.(state := Connected) else s
    case Send(data, result) => if s.state.Connected? then Sending(s, data, Kernel(result, s.shutdowns)) else s
    case SendInLoop(data, result) => Sending(s, data, Kernel(result, s.shutdowns))
    case HandleWrite(result) => Writing(s, Kernel(result, s.shutdowns))
    case Shutdown(inLoop) =>
      if !s.state.Connected? then s
      else
        var t := s.(state := Disconnecting);
        if inLoop then ShuttingDown(t) else t.(queuedShutdowns := t.queuedShutdowns + 1)
    case ShutdownInLoop =>
      if s.queuedShutdowns > 0 then ShuttingDown(s.(queuedShutdowns := s.queuedShutdowns - 1)) else s
    case HandleClose => Close(s)
    case Destroy => Close(s)
  }

  function Run(s: State, es: seq<Event>): State
    decreases |es|
  {
    if es == [] then s else Run(Step(s, es[0]), es[1..])
  }

  // ----- what every step keeps -----

  ghost predicate Inv(s: State) {
    && s.accepted + s.output == s.given
    && (s.closed <==> s.state.Disconnected?)
    && (!s.closed ==> (s.writing <==> s.output != []))
    && (!s.closed && s.asked ==> s.state.Disconnecting?)
    && (!s.closed && s.asked ==> s.shutdowns > 0 || (s.output != [] && s.writing))
    && ShutdownsRight(s)
  }

  // shutdown() takes effect once, and what it queues may issue SHUT_WR besides the handleWrite that drains.
  predicate ShutdownsRight(s: State) {
    && s.queuedShutdowns <= (if s.state.Connecting? || s.state.Connected? then 0 else 1)
    && (!s.closed ==> s.shutdowns + s.queuedShutdowns <= 2)
    && (!s.closed && s.shutdowns > 0 ==> s.state.Disconnecting?)
  }

  // The nested test never succeeds, so sendInLoop never drops data.
  lemma FaultErrorIsNeverSet(result: WriteResult)
    ensures !FaultError(result)
  {
  }

  lemma BufferedKeeps(s: State, rest: seq<Byte>)
    requires s.accepted + s.output + rest == s.given
    requires s.closed <==> s.state.Disconnected?
    requires !s.closed ==> (s.writing <==> s.output != [])
    requires !s.closed && s.asked ==> s.state.Disconnecting?
    requires !s.closed && s.asked ==> s.shutdowns > 0 || (s.output != [] && s.writing)
    requires ShutdownsRight(s)
    ensures Inv(Buffered(s, rest))
  {
  }

  lemma SendingKeeps(s: State, data: seq<Byte>, result: WriteResult)
    requires Inv(s)
    ensures Inv(Sending(s, data, result))
  {
    if !s.writing && s.output == [] {
      var n := Taken(result, |data|);
      assert s.accepted + [] == s.given;
      assert data == data[..n] + data[n..];
      assert s.accepted + data[..n] + [] + data[n..] == s.given + data;
      BufferedKeeps(WrittenDirectly(s.(given := s.given + data), data, result), data[n..]);
    } else {
      BufferedKeeps(s.(given := s.given + data), data);
    }
  }

  lemma WritingKeeps(s: State, result: WriteResult)
    requires Inv(s)
    ensures Inv(Writing(s, Kernel(result, s.shutdowns)))
  {
  }

  lemma StepKeeps(s: State, e: Event)
    requires Inv(s)
    ensures Inv(Step(s, e))
  {
    match e
    case Send(data, result) => SendingKeeps(s, data, Kernel(result, s.shutdowns));
    case SendInLoop(data, result) => SendingKeeps(s, data, Kernel(result, s.shutdowns));
    case HandleWrite(result) => WritingKeeps(s, result);
    case _ =>
  }

  lemma {:induction false} RunKeeps(s: State, es: seq<Event>)
    requires Inv(s)
    ensures Inv(Run(s, es))
    decreases |es|
  {
    if es != [] {
      StepKeeps(s, es[0]);
      RunKeeps(Step(s, es[0]), es[1..]);
    }
  }

  /** No byte is lost, repeated or reordered; until the close, write interest is on exactly while data is pending. */
  lemma OutputConserved(mark: nat, notify: bool, es: seq<Event>)
    ensures var s := Run(Start(mark, notify), es);
            && s.accepted + s.output == s.given
            && (!s.closed ==> (s.writing <==> s.output != []))
  {
    RunKeeps(Start(mark, notify), es);
  }

  /** After the close it need not be: a send that another thread had queued turns write interest on
      again exactly when it leaves data in the buffer, or adds to data left there. */
  lemma QueuedSendWritesAfterClose(s: State, data: seq<Byte>, result: WriteResult)
    requires s.closed && !s.writing
    ensures var t := Step(s, SendInLoop(data, result));
            && t.closed
            && (t.writing <==>
                  if s.output == [] then Taken(Kernel(result, s.shutdowns), |data|) < |data| else data != [])
  {
  }

  // ----- half-close -----

  /** A step that issues SHUT_WR before the close does so when the socket has taken all data. */
  lemma ShutdownAfterLastByte(s: State, e: Event)
    requires Inv(s) && !s.closed
    ensures var t := Step(s, e);
            t.shutdowns != s.shutdowns ==>
              t.shutdowns == s.shutdowns + 1 && t.output == [] && t.accepted == t.given && t.state.Disconnecting?
  {
    StepKeeps(s, e);
    var t := Step(s, e);
    assert t.output == [] ==> t.accepted + t.output == t.accepted;
  }

  /** After the close, a step issues SHUT_WR exactly if it is a shutdownInLoop that another thread queued
      before, and write interest is off; what is in the output buffer does not matter. */
  lemma ShutdownAfterClose(s: State, e: Event)
    requires Inv(s) && s.closed
    ensures Step(s, e).shutdowns != s.shutdowns <==> e.ShutdownInLoop? && s.queuedShutdowns > 0 && !s.writing
  {
  }

  // A send that the socket does not take yet.
  lemma BlockedSend(mark: nat, notify: bool, data: seq<Byte>)
    requires data != []
    ensures var s := Step(Step(Start(mark, notify), Establish), SendInLoop(data, Fails(EWOULDBLOCK)));
            s.state.Connected? && s.output == data && s.writing && s.shutdowns == 0 && s.queuedShutdowns == 0
  {
    assert data[0..] == data && [] + data == data;
  }

  // So data that is still buffered at the close is cut off by a SHUT_WR.
  lemma ShutdownCanCutOff(mark: nat, notify: bool, data: seq<Byte>)
    requires data != []
    ensures var sent := Step(Step(Start(mark, notify), Establish), SendInLoop(data, Fails(EWOULDBLOCK)));
            var closed := Step(Step(sent, Shutdown(false)), HandleClose);
            closed.output == data && Step(closed, ShutdownInLoop).shutdowns == 1
  {
    BlockedSend(mark, notify, data);
    ClosedBeforeTheFunctor(Step(Step(Start(mark, notify), Establish), SendInLoop(data, Fails(EWOULDBLOCK))));
  }

  lemma ClosedBeforeTheFunctor(s: State)
    requires s.state.Connected? && s.shutdowns == 0
    ensures var t := Step(Step(s, Shutdown(false)), HandleClose);
            t.output == s.output && Step(t, ShutdownInLoop).shutdowns == 1
  {
  }

  /** Once shutdownInLoop has run in kDisconnecting, SHUT_WR was issued or is still owed to pending data... */
  lemma ShutdownIsOwed(mark: nat, notify: bool, es: seq<Event>)
    ensures var s := Run(Start(mark, notify), es);
            !s.closed && s.asked ==> s.shutdowns > 0 || (s.output != [] && s.writing)
  {
    RunKeeps(Start(mark, notify), es);
  }

  /** ... and the handleWrite that drains the data issues it: one to which the socket takes everything, which
      it does not do a second time. */
  lemma DrainingPaysTheShutdown(s: State, result: WriteResult)
    requires Inv(s) && s.state.Disconnecting? && s.writing
    ensures var t := Step(s, HandleWrite(result));
            && (t.output == [] <==> s.shutdowns == 0 && Taken(result, |s.output|) == |s.output|)
            && (t.output == [] ==> t.shutdowns == s.shutdowns + 1 && !t.writing && t.accepted == t.given)
  {
    StepKeeps(s, HandleWrite(result));
    var t := Step(s, HandleWrite(result));
    assert t.output == [] ==> t.accepted + t.output == t.accepted;
  }

  /** Before the close SHUT_WR is issued a second time exactly by a shutdownInLoop that another thread's
      shutdown() had queued and that runs after the data was drained; there is no third time. */
  lemma SecondShutdown(s: State, e: Event)
    requires Inv(s) && !s.closed && s.shutdowns > 0
    ensures Step(s, e).shutdowns != s.shutdowns <==> e.ShutdownInLoop? && s.queuedShutdowns > 0 && !s.writing
    ensures Step(s, e).shutdowns <= 2
  {
  }

  // For instance in this run.
  lemma ShutdownCanComeTwice(mark: nat, notify: bool, data: seq<Byte>)
    requires data != []
    ensures var sent := Step(Step(Start(mark, notify), Establish), SendInLoop(data, Fails(EWOULDBLOCK)));
            var drained := Step(Step(sent, Shutdown(false)), HandleWrite(Wrote(|data|)));
            drained.shutdowns == 1 && Step(drained, ShutdownInLoop).shutdowns == 2
  {
    BlockedSend(mark, notify, data);
    DrainedBeforeTheFunctor(Step(Step(Start(mark, notify), Establish), SendInLoop(data, Fails(EWOULDBLOCK))));
  }

  lemma DrainedBeforeTheFunctor(s: State)
    requires s.state.Connected? && s.writing && s.output != [] && s.shutdowns == 0
    ensures var t := Step(Step(s, Shutdown(false)), HandleWrite(Wrote(|s.output|)));
            t.shutdowns == 1 && Step(t, ShutdownInLoop).shutdowns == 2
  {
    assert s.output[|s.output|..] == [];
  }

  lemma SendingShutsNothing(s: State, data: seq<Byte>, result: WriteResult)
    ensures var t := Sending(s, data, result);
            t.shutdowns == s.shutdowns && t.queuedShutdowns == s.queuedShutdowns && t.closed == s.closed
  {
  }

  lemma StepShutsOnce(s: State, e: Event)
    requires ShutdownsRight(s) && s.queuedShutdowns == 0 && (!s.closed ==> s.shutdowns <= 1)
    requires e != Shutdown(false)
    ensures var t := Step(s, e); t.queuedShutdowns == 0 && (!t.closed ==> t.shutdowns <= 1)
  {
    match e
    case Send(data, result) => SendingShutsNothing(s, data, Kernel(result, s.shutdowns));
    case SendInLoop(data, result) => SendingShutsNothing(s, data, Kernel(result, s.shutdowns));
    case _ =>
  }

  lemma {:induction false} OneShutdownInLoop(s: State, es: seq<Event>)
    requires Inv(s) && s.queuedShutdowns == 0 && (!s.closed ==> s.shutdowns <= 1)
    requires Shutdown(false) !in es
    ensures var t := Run(s, es); !t.closed ==> t.shutdowns <= 1
    decreases |es|
  {
    if es != [] {
      assert es[0] in es && forall e :: e in es[1..] ==> e in es;
      StepKeeps(s, es[0]);
      StepShutsOnce(s, es[0]);
      OneShutdownInLoop(Step(s, es[0]), es[1..]);
    }
  }

  /** Over every run, before the close: SHUT_WR at most twice, and at most once if shutdown() is called in the
      loop thread only. */
  lemma ShutdownsAtMost(mark: nat, notify: bool, es: seq<Event>)
    ensures var s := Run(Start(mark, notify), es);
            !s.closed ==> s.shutdowns <= if Shutdown(false) in es then 2 else 1
  {
    RunKeeps(Start(mark, notify), es);
    if Shutdown(false) !in es {
      OneShutdownInLoop(Start(mark, notify), es);
    }
  }

  // ----- after SHUT_WR -----

  lemma FailedSendTakesNothing(s: State, data: seq<Byte>, result: WriteResult)
    requires result.Fails?
    ensures var t := Sending(s, data, result);
            t.accepted == s.accepted && t.given == s.given + data && t.shutdowns == s.shutdowns
  {
    assert s.accepted + data[..0] == s.accepted;
  }

  lemma StepTakesNothing(s: State, e: Event)
    requires s.shutdowns > 0
    ensures var t := Step(s, e); t.accepted == s.accepted && t.shutdowns > 0 && |t.given| >= |s.given|
  {
    match e
    case Send(data, result) => FailedSendTakesNothing(s, data, Kernel(result, s.shutdowns));
    case SendInLoop(data, result) => FailedSendTakesNothing(s, data, Kernel(result, s.shutdowns));
    case _ =>
  }

  lemma {:induction false} RunTakesNothing(s: State, es: seq<Event>)
    requires s.shutdowns > 0
    ensures var t := Run(s, es); t.accepted == s.accepted && t.shutdowns > 0 && |t.given| >= |s.given|
    decreases |es|
  {
    if es != [] {
      StepTakesNothing(s, es[0]);
      RunTakesNothing(Step(s, es[0]), es[1..]);
    }
  }

  /** Data that a queued send brings after SHUT_WR is never taken, and until the close it keeps write interest
      on: the writes that this leads to all fail. */
  lemma LateSendStays(s: State, data: seq<Byte>, result: WriteResult, es: seq<Event>)
    requires Inv(s) && !s.closed && s.shutdowns > 0 && data != []
    ensures var t := Run(Step(s, SendInLoop(data, result)), es);
            t.accepted == s.accepted && (!t.closed ==> t.output != [] && t.writing)
  {
    var u := Step(s, SendInLoop(data, result));
    StepKeeps(s, SendInLoop(data, result));
    StepTakesNothing(s, SendInLoop(data, result));
    assert u.given == s.given + data && |s.accepted| <= |s.given|;
    RunTakesNothing(u, es);
    RunKeeps(u, es);
  }

  // ----- notifications -----

  function CountHighWater(notices: seq<Notice>): nat {
    if notices == [] then 0
    else CountHighWater(notices[..|notices| - 1]) + if notices[|notices| - 1].HighWater? then 1 else 0
  }

  predicate Crosses(s: State, t: State) {
    |s.output| < s.mark <= |t.output|
  }

  // How often the output buffer reaches the mark from below.
  function Crossings(s: State, es: seq<Event>): nat
    decreases |es|
  {
    if es == [] then 0
    else (if Crosses(s, Step(s, es[0])) then 1 else 0) + Crossings(Step(s, es[0]), es[1..])
  }

  // What a step from s to t queues: a high-water notification exactly when it crosses the mark.
  ghost predicate NoticesOk(s: State, t: State) {
    if Crosses(s, t) then t.notices == s.notices + [HighWater(|t.output|)]
    else if t.notices == s.notices then true
    else t.notices == s.notices + [WriteComplete] && t.output == [] && t.accepted == t.given
  }

  lemma NoticesOfBuffered(s: State, rest: seq<Byte>)
    ensures var t := Buffered(s, rest);
            && (rest == [] ==> t == s)
            && t.notices == if Crosses(s, t) then s.notices + [HighWater(|t.output|)] else s.notices
  {
  }

  lemma NoticesOfDirectWrite(s: State, data: seq<Byte>, result: WriteResult)
    requires Inv(s) && !s.writing && s.output == []
    ensures NoticesOk(s, Sending(s, data, result))
  {
    var n := Taken(result, |data|);
    var u := WrittenDirectly(s.(given := s.given + data), data, result);
    var t := Sending(s, data, result);
    assert t == Buffered(u, data[n..]) && u.output == s.output && u.mark == s.mark;
    NoticesOfBuffered(u, data[n..]);
    if n == |data| {
      assert data[n..] == [] && data[..n] == data;
      assert s.accepted == s.given by { assert s.accepted + [] == s.accepted; }
      assert t == u && !Crosses(s, t);
    } else {
      assert u.notices == s.notices;
    }
  }

  lemma NoticesOfSending(s: State, data: seq<Byte>, result: WriteResult)
    requires Inv(s)
    ensures NoticesOk(s, Sending(s, data, result))
  {
    if !s.writing && s.output == [] {
      NoticesOfDirectWrite(s, data, result);
    } else {
      NoticesOfBuffered(s.(given := s.given + data), data);
    }
  }

  lemma NoticesOfWriting(s: State, result: WriteResult)
    requires Inv(s)
    ensures NoticesOk(s, Writing(s, result))
  {
  }

  /** A step queues a high-water notification exactly when it crosses the mark, with the new size; and
      it queues a write-complete notification only when the socket has taken everything given. */
  lemma NoticesOfStep(s: State, e: Event)
    requires Inv(s)
    ensures NoticesOk(s, Step(s, e))
  {
    match e
    case Send(data, result) => NoticesOfSending(s, data, Kernel(result, s.shutdowns));
    case SendInLoop(data, result) => NoticesOfSending(s, data, Kernel(result, s.shutdowns));
    case HandleWrite(result) => NoticesOfWriting(s, Kernel(result, s.shutdowns));
    case _ =>
  }

  /** Over any run, one high-water notification per upward crossing. */
  lemma {:induction false} OneNoticePerCrossing(s: State, es: seq<Event>)
    requires Inv(s)
    ensures CountHighWater(Run(s, es).notices) == CountHighWater(s.notices) + Crossings(s, es)
    decreases |es|
  {
    if es != [] {
      var t := Step(s, es[0]);
      NoticesOfStep(s, es[0]);
      StepKeeps(s, es[0]);
      assert t.notices != s.notices ==> t.notices[..|t.notices| - 1] == s.notices;
      OneNoticePerCrossing(t, es[1..]);
    }
  }
}
