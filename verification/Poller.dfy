/**
 poller.cc as code, on channels that are objects: a removal moves the last slot, and
 writes the index of a channel that is not the one being removed.
 */
module Poller {
  import opened Channels
  import opened PollerSpec

  class Poller {
    var pollfds: seq<PollFd>
    var channels: map<int, Channel>

    ghost predicate Filed()
      reads this`channels, channels.Values`index
    {
      forall fd :: fd in channels ==> channels[fd].fd == fd && channels[fd].index >= 0
    }

    ghost function Model(): Poll
      reads this`pollfds, this`channels, channels.Values`index
    {
      Poll(pollfds, map fd | fd in channels :: channels[fd].index)
    }

    ghost predicate Valid()
      reads this, channels.Values`index
    {
      Filed() && PollRefines(Model(), InterestOf(Model()))
    }

    // A channel that is new to the poller, or the registered one for its descriptor.
    ghost predicate Known(channel: Channel)
      reads this, channel
    {
      if channel.index < 0 then channel.fd !in channels
      else channel.fd in channels && channels[channel.fd] == channel
    }

    constructor ()
      ensures Valid() && Model() == Poll([], map[])
    {
      pollfds, channels := [], map[];
    }

    // A new slot for a channel that is not registered...
    method AddSlot(channel: Channel)
      requires Filed() && channel.fd !in channels && channel.index < 0
      modifies this`pollfds, this`channels, channel`index
      ensures Model() == UpdatePoll(old(Model()), channel.fd, channel.interestedEvents)
      ensures channels == old(channels)[channel.fd := channel]
      ensures Filed()
    {
      ghost var p := Model();
      var idx := |pollfds|;
      pollfds := pollfds + [PollFd(channel.fd, channel.interestedEvents, 0)];
      assert forall fd :: fd in channels ==> channels[fd] != channel;
      channel.index := idx;
      channels := channels[channel.fd := channel];
      assert Model().index == p.index[channel.fd := idx];
    }

    // ... and new contents for the slot of a registered one.
    method RewriteSlot(channel: Channel)
      requires Filed() && channel.fd in channels && channels[channel.fd] == channel && channel.index < |pollfds|
      modifies this`pollfds
      ensures Model() == UpdatePoll(old(Model()), channel.fd, channel.interestedEvents)
      ensures Filed()
    {
      var pfd := PollFd(channel.fd, channel.interestedEvents, 0);
      if channel.IsNoneEvent() {
        pfd := pfd.(fd := -pfd.fd - 1);
      }
      pollfds := pollfds[channel.index := pfd];
    }

    method WriteSlot(channel: Channel)
      requires Filed() && IndicesAgree(Model()) && Known(channel)
      modifies this`pollfds, this`channels, channel`index
      ensures Model() == UpdatePoll(old(Model()), channel.fd, channel.interestedEvents)
      ensures channels == old(channels)[channel.fd := channel]
      ensures Filed()
    {
      if channel.index < 0 {
        AddSlot(channel);
      } else {
        assert Model().index[channel.fd] == channel.index;
        RewriteSlot(channel);
        assert channels == channels[channel.fd := channel];
      }
    }

    method UpdateChannel(channel: Channel)
      requires Valid() && Known(channel)
      modifies this, channel`index
      ensures Model() == UpdatePoll(old(Model()), channel.fd, channel.interestedEvents)
      ensures channels == old(channels)[channel.fd := channel]
      ensures InterestOf(Model()) == InterestOf(old(Model()))[channel.fd := channel.interestedEvents]
      ensures Valid()
    {
      UpdateKeeps(Model(), channel.fd, channel.interestedEvents);
      WriteSlot(channel);
    }

    // iter_swap and pop_back; the channel of the last slot learns its new place.
    method MoveLastTo(idx: nat)
      requires Filed() && idx < |pollfds| - 1 && Decode(pollfds[|pollfds| - 1].fd) in channels
      modifies this`pollfds, channels.Values`index
      ensures Filed() && pollfds == old(pollfds[idx := pollfds[|pollfds| - 1]][..|pollfds| - 1])
      ensures Model().index == old(Model().index)[Decode(old(pollfds[|pollfds| - 1].fd)) := idx]
    {
      var lastChannelFd := pollfds[|pollfds| - 1].fd;
      pollfds := pollfds[idx := pollfds[|pollfds| - 1]][|pollfds| - 1 := pollfds[idx]];
      if lastChannelFd < 0 {
        lastChannelFd := -lastChannelFd - 1;
      }
      channels[lastChannelFd].index := idx;
      forall fd | fd in channels && fd != lastChannelFd ensures channels[fd].index == old(channels[fd].index) {
        assert channels[fd].fd != channels[lastChannelFd].fd;
      }
      assert Model().index == old(Model().index)[lastChannelFd := idx];
      pollfds := pollfds[..|pollfds| - 1];
      assert pollfds == old(pollfds[idx := pollfds[|pollfds| - 1]][..|pollfds| - 1]);
    }

    method RemoveSlot(channel: Channel)
      requires Filed() && IndicesAgree(Model()) && channel.index >= 0 && Known(channel)
      modifies this`pollfds, this`channels, channels.Values`index
      ensures Model() == RemovePoll(old(Model()), channel.fd)
      ensures channels == old(channels) - {channel.fd}
      ensures Filed()
    {
      ghost var p := Model();
      var idx := channel.index;
      assert channel.fd in p.index && p.index[channel.fd] == idx && 0 <= idx < |p.slots|;
      channels := channels - {channel.fd};
      assert Model().index == p.index - {channel.fd};
      if idx == |pollfds| - 1 {
        pollfds := pollfds[..|pollfds| - 1];
      } else {
        assert var last := Decode(p.slots[|p.slots| - 1].fd); last in p.index && p.index[last] == |p.slots| - 1;
        MoveLastTo(idx);
      }
    }

    method RemoveChannel(channel: Channel)
      requires Valid() && channel.index >= 0 && Known(channel)
      modifies this, channels.Values`index
      ensures Model() == RemovePoll(old(Model()), channel.fd)
      ensures channels == old(channels) - {channel.fd}
      ensures InterestOf(Model()) == InterestOf(old(Model())) - {channel.fd}
      ensures Valid()
    {
      RemoveKeeps(Model(), channel.fd);
      RemoveSlot(channel);
    }

    // The number of slots with an event, which poll(2) returns.
    ghost function Ready(slots: seq<PollFd>): nat {
      if slots == [] then 0 else Ready(slots[..|slots| - 1]) + if slots[|slots| - 1].revents > 0 then 1 else 0
    }

    // The channels of those slots, in slot order.
    ghost function Active(slots: seq<PollFd>): seq<Channel>
      reads this`channels
    {
      if slots == [] then []
      else
        var last := slots[|slots| - 1];
        Active(slots[..|slots| - 1]) + if last.revents > 0 && last.fd in channels then [channels[last.fd]] else []
    }

    // What a channel has received once these slots have been looked at.
    ghost function Received(slots: seq<PollFd>, fd: int, before: int): int {
      if slots == [] then before
      else
        var last := slots[|slots| - 1];
        if last.revents > 0 && last.fd == fd then last.revents else Received(slots[..|slots| - 1], fd, before)
    }

    lemma ReadyGrows(slots: seq<PollFd>, n: nat)
      requires n <= |slots|
      ensures Ready(slots[..n]) <= Ready(slots)
    {
      if n == |slots| {
        assert slots[..n] == slots;
      } else {
        assert slots[..|slots| - 1][..n] == slots[..n];
        ReadyGrows(slots[..|slots| - 1], n);
      }
    }

    // When the countdown has reached zero, the slots that are left change nothing.
    lemma NothingReadyLeft(slots: seq<PollFd>, n: nat)
      requires n <= |slots| && Ready(slots[..n]) == Ready(slots)
      ensures Active(slots[..n]) == Active(slots)
      ensures forall fd, before :: Received(slots[..n], fd, before) == Received(slots, fd, before)
    {
      if n == |slots| {
        assert slots[..n] == slots;
      } else {
        var most := slots[..|slots| - 1];
        assert most[..n] == slots[..n];
        ReadyGrows(most, n);
        NothingReadyLeft(most, n);
      }
    }

    // One slot more.
    lemma OneMoreSlot(i: nat)
      requires i < |pollfds|
      ensures var pfd, before, after := pollfds[i], pollfds[..i], pollfds[..i + 1];
              && Ready(after) == Ready(before) + (if pfd.revents > 0 then 1 else 0) <= Ready(pollfds)
              && Active(after) == Active(before) + (if pfd.revents > 0 && pfd.fd in channels then [channels[pfd.fd]] else [])
              && forall fd, was :: Received(after, fd, was) ==
                   if pfd.revents > 0 && pfd.fd == fd then pfd.revents else Received(before, fd, was)
    {
      ReadyGrows(pollfds, i + 1);
      assert pollfds[..i + 1][..i] == pollfds[..i] && pollfds[..i + 1][i] == pollfds[i];
    }

    // The loop of fillActiveChannels: with the true count it may stop early without missing a channel.
    method Scan(numEvents: nat) returns (activeChannels: seq<Channel>)
      requires numEvents == Ready(pollfds)
      requires forall fd :: fd in channels ==> channels[fd].fd == fd
      modifies channels.Values`receivedEvents
      ensures activeChannels == Active(pollfds)
      ensures forall fd :: fd in channels ==>
                channels[fd].receivedEvents == Received(pollfds, fd, old(channels[fd].receivedEvents))
    {
      activeChannels := [];
      var left: nat := numEvents;
      var i := 0;
      while i < |pollfds| && left > 0
        invariant 0 <= i <= |pollfds|
        invariant left == numEvents - Ready(pollfds[..i])
        invariant activeChannels == Active(pollfds[..i])
        invariant forall fd :: fd in channels ==>
                    channels[fd].receivedEvents == Received(pollfds[..i], fd, old(channels[fd].receivedEvents))
      {
        OneMoreSlot(i);
        var pfd := pollfds[i];
        if pfd.revents > 0 {
          left := left - 1;
          if pfd.fd in channels {
            channels[pfd.fd].receivedEvents := pfd.revents;
            activeChannels := activeChannels + [channels[pfd.fd]];
          }
        }
        i := i + 1;
      }
      assert pollfds[..|pollfds|] == pollfds;
      NothingReadyLeft(pollfds, i);
    }

    ghost predicate IsReady(slots: seq<PollFd>, fd: int) {
      exists k :: 0 <= k < |slots| && slots[k].fd == fd && slots[k].revents > 0
    }

    // No two slots are for the same descriptor.
    lemma DistinctSlots(p: Poll)
      requires IndicesAgree(p)
      ensures forall j, k :: 0 <= j < k < |p.slots| ==> p.slots[j].fd != p.slots[k].fd
    {
      assert forall k :: 0 <= k < |p.slots| ==> p.index[Decode(p.slots[k].fd)] == k;
    }

    // So a channel has received what its own slot says.
    lemma ReceivedFromOwnSlot(slots: seq<PollFd>, k: nat, before: int)
      requires forall i, j :: 0 <= i < j < |slots| ==> slots[i].fd != slots[j].fd
      requires k < |slots| && slots[k].revents > 0
      ensures Received(slots, slots[k].fd, before) == slots[k].revents
    {
      if k < |slots| - 1 {
        ReceivedFromOwnSlot(slots[..|slots| - 1], k, before);
      }
    }

    lemma ReceivedNothing(slots: seq<PollFd>, fd: int, before: int)
      requires forall k :: 0 <= k < |slots| && slots[k].fd == fd ==> slots[k].revents <= 0
      ensures Received(slots, fd, before) == before
    {
      if slots != [] {
        ReceivedNothing(slots[..|slots| - 1], fd, before);
      }
    }

    lemma ReceivedOnce(p: Poll)
      requires IndicesAgree(p)
      ensures forall k, before :: 0 <= k < |p.slots| && p.slots[k].revents > 0 ==>
                Received(p.slots, p.slots[k].fd, before) == p.slots[k].revents
      ensures forall fd, before :: !IsReady(p.slots, fd) ==> Received(p.slots, fd, before) == before
    {
      DistinctSlots(p);
      forall k, before | 0 <= k < |p.slots| && p.slots[k].revents > 0
        ensures Received(p.slots, p.slots[k].fd, before) == p.slots[k].revents
      {
        ReceivedFromOwnSlot(p.slots, k, before);
      }
      forall fd, before | !IsReady(p.slots, fd) ensures Received(p.slots, fd, before) == before {
        ReceivedNothing(p.slots, fd, before);
      }
    }

    // poll(2) reports nothing for an ignored descriptor, so every reported slot gives its channel.
    lemma EveryReadyChannelIsListed()
      requires Valid()
      requires forall k :: 0 <= k < |pollfds| && pollfds[k].revents > 0 ==> pollfds[k].fd >= 0
      ensures |Active(pollfds)| == Ready(pollfds)
      ensures forall k :: 0 <= k < |pollfds| && pollfds[k].revents > 0 ==>
                pollfds[k].fd in channels && Ready(pollfds[..k]) < |Active(pollfds)|
                && Active(pollfds)[Ready(pollfds[..k])] == channels[pollfds[k].fd]
    {
      forall k | 0 <= k < |pollfds| ensures Decode(pollfds[k].fd) in channels {
        assert Decode(pollfds[k].fd) in Model().index;
      }
      assert pollfds[..|pollfds|] == pollfds;
      ListedUpTo(|pollfds|);
    }

    lemma ListedUpTo(n: nat)
      requires n <= |pollfds|
      requires forall k :: 0 <= k < |pollfds| && pollfds[k].revents > 0 ==> pollfds[k].fd in channels
      ensures |Active(pollfds[..n])| == Ready(pollfds[..n])
      ensures forall k :: 0 <= k < n && pollfds[k].revents > 0 ==>
                Ready(pollfds[..k]) < |Active(pollfds[..n])|
                && Active(pollfds[..n])[Ready(pollfds[..k])] == channels[pollfds[k].fd]
    {
      if n > 0 {
        ListedUpTo(n - 1);
        assert pollfds[..n][..n - 1] == pollfds[..n - 1];
      }
    }

    // Each channel with events is listed once, at the rank of its slot, and has received them.
    method FillActiveChannels(numEvents: nat) returns (activeChannels: seq<Channel>)
      requires Valid() && numEvents == Ready(pollfds)
      requires forall k :: 0 <= k < |pollfds| && pollfds[k].revents > 0 ==> pollfds[k].fd >= 0
      modifies channels.Values`receivedEvents
      ensures Valid()
      ensures |activeChannels| == numEvents
      ensures forall k :: 0 <= k < |pollfds| && pollfds[k].revents > 0 ==>
                && pollfds[k].fd in channels && Ready(pollfds[..k]) < numEvents
                && activeChannels[Ready(pollfds[..k])] == channels[pollfds[k].fd]
                && channels[pollfds[k].fd].receivedEvents == pollfds[k].revents
      ensures forall fd :: fd in channels && !IsReady(pollfds, fd) ==>
                channels[fd].receivedEvents == old(channels[fd].receivedEvents)
    {
      EveryReadyChannelIsListed();
      ReceivedOnce(Model());
      activeChannels := Scan(numEvents);
    }
  }
}
