/** epollpoller.cc as code: index_ holds a tag that says where the channel is. */
module EPollPoller {
  import opened Channels
  import opened PollerSpec

  class EPollPoller {
    var channels: map<int, Channel>
    var kernel: map<int, int>
    var refused: bool
    ghost var interest: Interest

    ghost predicate Filed()
      reads this`channels
    {
      forall fd :: fd in channels ==> channels[fd].fd == fd
    }

    ghost function Model(): Epoll
      reads this`kernel, this`channels, this`refused, channels.Values`index
    {
      Epoll(kernel, map fd | fd in channels :: channels[fd].index, refused)
    }

    ghost predicate Valid()
      reads this, channels.Values
    {
      Filed() && EpollRefines(Model(), interest)
    }

    ghost predicate Known(channel: Channel)
      reads this, channel
    {
      if channel.index == NEW then channel.fd !in channels
      else channel.fd in channels && channels[channel.fd] == channel
    }

    constructor ()
      ensures Valid() && Model() == Epoll(map[], map[], false) && interest == map[]
    {
      channels, kernel, refused, interest := map[], map[], false, map[];
    }

    // epoll_ctl(2)
    method Ctl(op: Op, channel: Channel)
      modifies this`kernel, this`refused
      ensures Model() == Control(old(Model()), op, channel.fd, channel.interestedEvents)
    {
      if (channel.fd in kernel) == op.Add? {
        refused := true;
      } else if op.Del? {
        kernel := kernel - {channel.fd};
      } else {
        kernel := kernel[channel.fd := channel.interestedEvents];
      }
    }

    method SetTag(channel: Channel, tag: int)
      requires Filed() && channel.fd in channels && channels[channel.fd] == channel
      modifies channel`index
      ensures Filed() && channel.index == tag
      ensures Model() == old(Model()).(tags := old(Model()).tags[channel.fd := tag])
    {
      channel.index := tag;
      forall fd | fd in channels && fd != channel.fd ensures channels[fd].index == old(channels[fd].index) {
        assert channels[fd].fd != channel.fd;
      }
      assert Model().tags == old(Model()).tags[channel.fd := tag];
    }

    method UpdateTag(channel: Channel)
      requires Filed() && TagsAgree(Model()) && Known(channel)
      modifies this`channels, this`kernel, this`refused, channel`index
      ensures Model() == UpdateEpoll(old(Model()), channel.fd, channel.interestedEvents)
      ensures channels == old(channels)[channel.fd := channel]
      ensures Filed() && channel.index != NEW
    {
      ghost var e := Model();
      var tag := channel.index;
      assert tag == TagOf(e, channel.fd);
      if tag == NEW || tag == DELETED {
        if tag == NEW {
          channels := channels[channel.fd := channel];
        }
        assert channels == old(channels)[channel.fd := channel];
        assert Model().(tags := Model().tags[channel.fd := ADDED]) == e.(tags := e.tags[channel.fd := ADDED]);
        SetTag(channel, ADDED);
        Ctl(Add, channel);
      } else if channel.IsNoneEvent() {
        assert channels == old(channels)[channel.fd := channel];
        Ctl(Del, channel);
        SetTag(channel, DELETED);
      } else {
        assert channels == old(channels)[channel.fd := channel];
        Ctl(Mod, channel);
      }
    }

    method UpdateChannel(channel: Channel)
      requires Valid() && Known(channel)
      modifies this, channel`index
      ensures Model() == UpdateEpoll(old(Model()), channel.fd, channel.interestedEvents)
      ensures channels == old(channels)[channel.fd := channel]
      ensures interest == old(interest)[channel.fd := channel.interestedEvents]
      ensures Valid() && Known(channel)
    {
      StepEpollRefines(Model(), interest, Update(channel.fd, channel.interestedEvents));
      UpdateTag(channel);
      interest := interest[channel.fd := channel.interestedEvents];
    }

    method RemoveTag(channel: Channel)
      requires Filed() && Known(channel) && channel.index != NEW
      modifies this`channels, this`kernel, this`refused, channel`index
      ensures Model() == RemoveEpoll(old(Model()), channel.fd)
      ensures channels == old(channels) - {channel.fd}
      ensures Filed() && channel.index == NEW
    {
      ghost var e := Model();
      channels := channels - {channel.fd};
      assert Model().tags == e.tags - {channel.fd};
      if channel.index == ADDED {
        Ctl(Del, channel);
      }
      ghost var f := Model();
      assert forall fd :: fd in channels ==> channels[fd].fd != channel.fd;
      channel.index := NEW;
      assert Model().tags == f.tags;
    }

    method RemoveChannel(channel: Channel)
      requires Valid() && Known(channel) && channel.index != NEW
      modifies this, channel`index
      ensures Model() == RemoveEpoll(old(Model()), channel.fd)
      ensures channels == old(channels) - {channel.fd}
      ensures interest == old(interest) - {channel.fd}
      ensures Valid() && Known(channel) && channel.index == NEW
    {
      StepEpollRefines(Model(), interest, Remove(channel.fd));
      RemoveTag(channel);
      interest := interest - {channel.fd};
    }
  }
}
