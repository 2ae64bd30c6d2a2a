/**
 connector.cc as code: each handler is one step of ConnectorSpec. The fault flag is set
 where an assert of the source would fail, and what the methods add to the machine is
 that on every call but a retry that comes too soon, or a start() when the connector is
 not quiet, it stays clear.
 */
module Connector {
  import opened ConnectorSpec

  class Connector {
    var connected: bool
    var state: ConnState
    var channel: Option<nat>
    var retryDelayMs: int
    var timers: nat
    var created: nat
    ghost var registered: bool
    ghost var resets: nat
    ghost var stops: nat
    ghost var starts: nat
    ghost var started: bool
    ghost var closed: multiset<nat>
    ghost var handed: multiset<nat>
    ghost var delays: seq<int>
    ghost var fault: bool

    ghost function Model(): State
      reads this
    {
      State(connected, state, channel, registered, resets, stops, starts, timers, retryDelayMs, started, created,
            closed, handed, delays, fault)
    }

    constructor ()
      ensures Model() == NEW && Inv(Model())
    {
      connected, state, channel, retryDelayMs := false, Disconnected, None, INIT_RETRY_DELAY_MS;
      timers, created, registered, resets, stops, starts, started := 0, 0, false, 0, 0, 0, false;
      closed, handed, delays, fault := multiset{}, multiset{}, [], false;
    }

    // start() and stop(), from any thread; both queue their second half.
    method Start()
      requires Inv(Model())
      modifies this
      ensures Model() == Step(old(Model()), Event.Start)
      ensures Inv(Model()) <==> Quiet(old(Model()))
    {
      StartKeepsExactlyWhenQuiet(Model());
      started := true;
      connected := true;
      starts := starts + 1;
    }

    method Stop()
      requires Inv(Model())
      modifies this
      ensures Model() == Step(old(Model()), Event.Stop) && Inv(Model())
    {
      StepKeeps(Model(), Event.Stop);
      connected := false;
      stops := stops + 1;
    }

    method StartInLoop(outcome: Outcome)
      modifies this
      ensures Model() == Starting(old(Model()), outcome)
    {
      fault := fault || !state.Disconnected?;
      if connected {
        Connect(outcome);
      }
    }

    method Connect(outcome: Outcome)
      modifies this
      ensures Model() == ConnectorSpec.Connect(old(Model()), outcome)
    {
      ghost var s := Model();
      var sockfd := created;
      created := created + 1;
      assert Model() == s.(created := s.created + 1);
      match outcome
      case UnderWay => Connecting(sockfd);
      case Retryable => Retry(sockfd);
      case Hopeless => closed := closed + multiset{sockfd};
    }

    method Connecting(sockfd: nat)
      modifies this`state, this`fault, this`channel, this`registered
      ensures Model() == Register(old(Model()), sockfd)
    {
      state := ConnState.Connecting;
      fault := fault || channel.Some?;
      channel := Some(sockfd);
      registered := true;
    }

    method RemoveAndResetChannel() returns (sockfd: nat)
      requires channel.Some?
      modifies this`registered, this`resets
      ensures Model() == RemoveChannel(old(Model())) && sockfd == SocketOf(old(Model()))
    {
      registered := false;
      sockfd := channel.value;
      resets := resets + 1;
    }

    // resetChannel as a queued functor
    method ResetChannel()
      requires Inv(Model()) && resets > 0
      modifies this
      ensures Model() == Step(old(Model()), Event.ResetChannel) && Inv(Model())
    {
      StepKeeps(Model(), Event.ResetChannel);
      resets := resets - 1;
      channel := None;
    }

    method Retry(sockfd: nat)
      modifies this`closed, this`state, this`timers, this`delays, this`retryDelayMs
      ensures Model() == ConnectorSpec.Retry(old(Model()), sockfd)
    {
      closed := closed + multiset{sockfd};
      state := Disconnected;
      if connected {
        timers := timers + 1;
        delays := delays + [retryDelayMs];
        retryDelayMs := Min(retryDelayMs * 2, MAX_RETRY_DELAY_MS);
      }
    }

    // startInLoop as queued by start()
    method RunQueuedStart(outcome: Outcome)
      requires Inv(Model()) && starts > 0
      modifies this
      ensures Model() == Step(old(Model()), Event.StartInLoop(outcome)) && Inv(Model())
    {
      StepKeeps(Model(), Event.StartInLoop(outcome));
      starts := starts - 1;
      StartInLoop(outcome);
    }

    // startInLoop as the callback of the retry timer
    method RetryTimer(outcome: Outcome)
      requires Inv(Model()) && timers > 0
      modifies this
      ensures Model() == Step(old(Model()), Event.TimerFires(outcome))
      ensures !TooSoon(old(Model()), Event.TimerFires(outcome)) ==> Inv(Model())
    {
      if !TooSoon(Model(), Event.TimerFires(outcome)) {
        StepKeeps(Model(), Event.TimerFires(outcome));
      }
      timers := timers - 1;
      StartInLoop(outcome);
    }

    method StopInLoop()
      requires Inv(Model()) && stops > 0
      modifies this
      ensures Model() == Step(old(Model()), Event.StopInLoop) && Inv(Model())
    {
      StepKeeps(Model(), Event.StopInLoop);
      stops := stops - 1;
      if state.Connecting? {
        GiveUp();
      }
    }

    // What stopInLoop does in kConnecting: the attempt is retried, which plans nothing if stop() was the last call.
    method GiveUp()
      requires channel.Some?
      modifies this
      ensures Model() == ConnectorSpec.Retry(RemoveChannel(old(Model()).(state := Disconnected)), SocketOf(old(Model())))
    {
      state := Disconnected;
      var sockfd := RemoveAndResetChannel();
      Retry(sockfd);
    }

    // What handleWrite does in kConnecting: connected, or failed, or connected to itself.
    method FinishConnecting(error: bool, selfConnected: bool)
      requires channel.Some?
      modifies this
      ensures Model() == Written(old(Model()), error || selfConnected)
    {
      var sockfd := RemoveAndResetChannel();
      if error {
        Retry(sockfd);
      } else if selfConnected {
        Retry(sockfd);
      } else {
        state := Connected;
        if connected {
          handed := handed + multiset{sockfd};
        } else {
          closed := closed + multiset{sockfd};
        }
      }
    }

    method WhenWritable(error: bool, selfConnected: bool)
      requires state.Connecting? ==> channel.Some?
      modifies this
      ensures Model() == Step(old(Model()), Event.HandleWrite(error, selfConnected))
    {
      if state.Connecting? {
        FinishConnecting(error, selfConnected);
      } else if registered {
        fault := fault || !state.Disconnected?;
      }
    }

    method HandleWrite(error: bool, selfConnected: bool)
      requires Inv(Model())
      modifies this
      ensures Model() == Step(old(Model()), Event.HandleWrite(error, selfConnected)) && Inv(Model())
    {
      StepKeeps(Model(), Event.HandleWrite(error, selfConnected));
      WhenWritable(error, selfConnected);
    }

    method HandleError()
      requires Inv(Model())
      modifies this
      ensures Model() == Step(old(Model()), Event.HandleError) && Inv(Model())
    {
      StepKeeps(Model(), Event.HandleError);
      if state.Connecting? {
        var sockfd := RemoveAndResetChannel();
        Retry(sockfd);
      }
    }
  }
}
