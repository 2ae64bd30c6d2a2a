/**
 Two implementations of one interest map. Poller files it in an array with an index
 per channel and removes by swapping; EPollPoller keeps tags in step with a set in
 the kernel. A channel is named by its file descriptor here.
 */
module PollerSpec {
  // ----- the interest map -----

  type Interest = map<int, int>

  datatype Call = Update(fd: nat, events: nat) | Remove(fd: nat)

  function Want(w: Interest, c: Call): Interest {
    match c
    case Update(fd, events) => w[fd := events]
    case Remove(fd) => w - {fd}
  }

  // What poll(2) or epoll_wait(2) watches: the pairs with some event.
  ghost function Watched(w: Interest): set<(int, int)> {
    set fd | fd in w && w[fd] != 0 :: (fd, w[fd])
  }

  // ----- poller.cc -----

  datatype PollFd = PollFd(fd: int, events: int, revents: int)

  // pollfds_, and the index_ of every channel in channels_.
  datatype Poll = Poll(slots: seq<PollFd>, index: map<int, int>)

  // An ignored descriptor x is stored as -x - 1.
  function Decode(x: int): int { if x < 0 then -x - 1 else x }

  function Stored(fd: int, events: int): int { if events == 0 then -fd - 1 else fd }

  function UpdatePoll(p: Poll, fd: nat, events: nat): Poll {
    if fd !in p.index then
      Poll(p.slots + [PollFd(fd, events, 0)], p.index[fd := |p.slots|])
    else if 0 <= p.index[fd] < |p.slots| then
      p.(slots := p.slots[p.index[fd] := PollFd(Stored(fd, events), events, 0)])
    else p
  }

  function RemovePoll(p: Poll, fd: nat): Poll {
    if fd !in p.index || !(0 <= p.index[fd] < |p.slots|) then p
    else
      var i, n := p.index[fd], |p.slots| - 1;
      if i == n then Poll(p.slots[..n], p.index - {fd})
      else Poll(p.slots[i := p.slots[n]][..n], (p.index - {fd})[Decode(p.slots[n].fd) := i])
  }

  function StepPoll(p: Poll, c: Call): Poll {
    match c
    case Update(fd, events) => UpdatePoll(p, fd, events)
    case Remove(fd) => RemovePoll(p, fd)
  }

  // Every registered channel's index names the one slot that is its own.
  ghost predicate IndicesAgree(p: Poll) {
    && |p.index| == |p.slots|
    && (forall fd :: fd in p.index ==> fd >= 0 && 0 <= p.index[fd] < |p.slots| && Decode(p.slots[p.index[fd]].fd) == fd)
    && (forall i :: 0 <= i < |p.slots| ==> Decode(p.slots[i].fd) in p.index && p.index[Decode(p.slots[i].fd)] == i)
  }

  ghost predicate PollRefines(p: Poll, w: Interest) {
    && IndicesAgree(p)
    && p.index.Keys == w.Keys
    && (forall fd :: fd in w ==> p.slots[p.index[fd]].events == w[fd])
    && (forall i :: 0 <= i < |p.slots| && p.slots[i].fd < 0 ==> p.slots[i].events == 0)
  }

  // The interest map that a poller with these slots has been given.
  function InterestOf(p: Poll): Interest {
    map fd | fd in p.index && 0 <= p.index[fd] < |p.slots| :: p.slots[p.index[fd]].events
  }

  lemma InterestIsUnique(p: Poll, w: Interest)
    requires PollRefines(p, w)
    ensures InterestOf(p) == w
  {
    var v := InterestOf(p);
    assert forall fd :: fd in w <==> fd in p.index.Keys;
    assert forall fd :: fd in v <==> fd in w;
    assert forall fd :: fd in w ==> v[fd] == w[fd];
  }

  ghost function WatchedByPoll(p: Poll): set<(int, int)> {
    set i | 0 <= i < |p.slots| && p.slots[i].fd >= 0 && p.slots[i].events != 0 :: (p.slots[i].fd, p.slots[i].events)
  }

  // A slot at the end for a channel that is new.
  lemma NewSlotAgrees(p: Poll, fd: nat, events: nat)
    requires IndicesAgree(p) && fd !in p.index
    ensures IndicesAgree(UpdatePoll(p, fd, events))
  {
    assert |p.index[fd := |p.slots|]| == |p.index| + 1;
  }

  lemma NewSlotRefines(p: Poll, w: Interest, fd: nat, events: nat)
    requires PollRefines(p, w) && fd !in p.index
    ensures PollRefines(UpdatePoll(p, fd, events), w[fd := events])
  {
    NewSlotAgrees(p, fd, events);
  }

  // The channel's own slot written again.
  lemma SameSlotRefines(p: Poll, w: Interest, fd: nat, events: nat)
    requires PollRefines(p, w) && fd in p.index
    ensures PollRefines(UpdatePoll(p, fd, events), w[fd := events])
  {
    var q := UpdatePoll(p, fd, events);
    assert Decode(Stored(fd, events)) == fd;
    forall i | 0 <= i < |p.slots|
      ensures Decode(q.slots[i].fd) == Decode(p.slots[i].fd)
    {
    }
  }

  lemma UpdatePollRefines(p: Poll, w: Interest, fd: nat, events: nat)
    requires PollRefines(p, w)
    ensures PollRefines(UpdatePoll(p, fd, events), w[fd := events])
  {
    if fd in p.index {
      SameSlotRefines(p, w, fd, events);
    } else {
      NewSlotRefines(p, w, fd, events);
    }
  }

  /** The slot of a channel after its update: a new one at the end watches the descriptor; a registered one is
      ignored, its descriptor negated, exactly when nothing is wanted. No event is left over from before. */
  lemma SlotAfterUpdate(p: Poll, fd: nat, events: nat)
    requires IndicesAgree(p)
    ensures var q, ignored: int := UpdatePoll(p, fd, events), -1 - fd;
            && fd in q.index
            && (if fd in p.index then q.index == p.index else q.index == p.index[fd := |p.slots|])
            && q.slots[q.index[fd]].events == events && q.slots[q.index[fd]].revents == 0
            && (if fd in p.index && events == 0 then q.slots[q.index[fd]].fd == ignored else q.slots[q.index[fd]].fd == fd)
            && forall i :: 0 <= i < |p.slots| && i != q.index[fd] ==> q.slots[i] == p.slots[i]
  {
  }

  // The slots after a removal: the last one has taken the place of the removed one.
  lemma SlotsAfterRemove(p: Poll, fd: nat, k: int)
    requires IndicesAgree(p) && fd in p.index && 0 <= k < |p.slots| - 1
    ensures var q := RemovePoll(p, fd);
            var was := if k == p.index[fd] then |p.slots| - 1 else k;
            && |q.slots| == |p.slots| - 1 && q.slots[k] == p.slots[was]
            && Decode(q.slots[k].fd) in q.index && q.index[Decode(q.slots[k].fd)] == k
  {
    var n := |p.slots| - 1;
    assert Decode(p.slots[k].fd) in p.index && p.index[Decode(p.slots[k].fd)] == k;
    assert Decode(p.slots[n].fd) in p.index && p.index[Decode(p.slots[n].fd)] == n;
  }

  // The keys after a removal, and where their slots were.
  lemma IndexAfterRemove(p: Poll, fd: nat)
    requires IndicesAgree(p) && fd in p.index
    ensures var q := RemovePoll(p, fd);
            && q.index.Keys == p.index.Keys - {fd} && |q.index| == |p.index| - 1
            && forall x :: x in q.index ==>
                 q.index[x] == (if p.index[x] == |p.slots| - 1 then p.index[fd] else p.index[x])
                 && 0 <= q.index[x] < |p.slots| - 1
  {
  }

  lemma RemovePollRefines(p: Poll, w: Interest, fd: nat)
    requires PollRefines(p, w)
    ensures PollRefines(RemovePoll(p, fd), w - {fd})
  {
    if fd in p.index {
      var q := RemovePoll(p, fd);
      IndexAfterRemove(p, fd);
      forall k | 0 <= k < |p.slots| - 1
        ensures Decode(q.slots[k].fd) in q.index && q.index[Decode(q.slots[k].fd)] == k
        ensures q.slots[k].fd < 0 ==> q.slots[k].events == 0
      {
        SlotsAfterRemove(p, fd, k);
      }
      forall x | x in q.index
        ensures Decode(q.slots[q.index[x]].fd) == x && q.slots[q.index[x]].events == w[x]
      {
        SlotsAfterRemove(p, fd, q.index[x]);
        assert x in p.index && p.index[x] != p.index[fd];
      }
    } else {
      assert w - {fd} == w;
    }
  }

  // The same, with the interest read off the slots.
  lemma UpdateKeeps(p: Poll, fd: nat, events: nat)
    requires PollRefines(p, InterestOf(p))
    ensures var q := UpdatePoll(p, fd, events);
            PollRefines(q, InterestOf(q)) && InterestOf(q) == InterestOf(p)[fd := events]
  {
    UpdatePollRefines(p, InterestOf(p), fd, events);
    InterestIsUnique(UpdatePoll(p, fd, events), InterestOf(p)[fd := events]);
  }

  lemma RemoveKeeps(p: Poll, fd: nat)
    requires PollRefines(p, InterestOf(p))
    ensures var q := RemovePoll(p, fd);
            PollRefines(q, InterestOf(q)) && InterestOf(q) == InterestOf(p) - {fd}
  {
    RemovePollRefines(p, InterestOf(p), fd);
    InterestIsUnique(RemovePoll(p, fd), InterestOf(p) - {fd});
  }

  lemma PollWatches(p: Poll, w: Interest)
    requires PollRefines(p, w)
    ensures WatchedByPoll(p) == Watched(w)
  {
    forall x | x in WatchedByPoll(p) ensures x in Watched(w) {
      var i :| 0 <= i < |p.slots| && p.slots[i].fd >= 0 && p.slots[i].events != 0 && x == (p.slots[i].fd, p.slots[i].events);
      assert Decode(p.slots[i].fd) in p.index && p.index[Decode(p.slots[i].fd)] == i;
      assert x.0 in w && w[x.0] == x.1;
    }
    forall x | x in Watched(w) ensures x in WatchedByPoll(p) {
      var i := p.index[x.0];
      assert 0 <= i < |p.slots| && Decode(p.slots[i].fd) == x.0;
      assert p.slots[i].fd >= 0 && x == (p.slots[i].fd, p.slots[i].events);
    }
  }

  // ----- epollpoller.cc -----

  const NEW: int := -1
  const ADDED: int := 1
  const DELETED: int := 2

  // The kernel's interest list, and the tags of the channels in channels_. A channel that is
  // not there has the tag kNew. refused: an epoll_ctl call got EEXIST or ENOENT.
  datatype Epoll = Epoll(kernel: map<int, int>, tags: map<int, int>, refused: bool)

  datatype Op = Add | Mod | Del

  function Control(e: Epoll, op: Op, fd: int, events: int): Epoll {
    if (fd in e.kernel) == op.Add? then e.(refused := true)
    else if op.Del? then e.(kernel := e.kernel - {fd})
    else e.(kernel := e.kernel[fd := events])
  }

  function TagOf(e: Epoll, fd: int): int { if fd in e.tags then e.tags[fd] else NEW }

  function UpdateEpoll(e: Epoll, fd: nat, events: nat): Epoll {
    var tag := TagOf(e, fd);
    if tag == NEW || tag == DELETED then
      Control(e.(tags := e.tags[fd := ADDED]), Add, fd, events)
    else if events == 0 then
      var d := Control(e, Del, fd, events);
      d.(tags := d.tags[fd := DELETED])
    else
      Control(e, Mod, fd, events)
  }

  function RemoveEpoll(e: Epoll, fd: nat): Epoll {
    if fd !in e.tags then e
    else
      var d := e.(tags := e.tags - {fd});
      if TagOf(e, fd) == ADDED then Control(d, Del, fd, 0) else d
  }

  function StepEpoll(e: Epoll, c: Call): Epoll {
    match c
    case Update(fd, events) => UpdateEpoll(e, fd, events)
    case Remove(fd) => RemoveEpoll(e, fd)
  }

  // kAdded: in the kernel set. kDeleted: in channels_ only. kNew: in neither. And no call was refused.
  ghost predicate TagsAgree(e: Epoll) {
    && !e.refused
    && (forall fd :: TagOf(e, fd) == ADDED <==> fd in e.kernel)
    && (forall fd :: TagOf(e, fd) == DELETED <==> fd in e.tags && fd !in e.kernel)
    && (forall fd :: TagOf(e, fd) == NEW <==> fd !in e.tags && fd !in e.kernel)
  }

  ghost predicate EpollRefines(e: Epoll, w: Interest) {
    && TagsAgree(e)
    && e.tags.Keys == w.Keys
    && (forall fd :: fd in e.kernel ==> fd in w && e.kernel[fd] == w[fd])
    && (forall fd :: fd in w && w[fd] != 0 ==> fd in e.kernel)
  }

  ghost function WatchedByEpoll(e: Epoll): set<(int, int)> {
    set fd | fd in e.kernel && e.kernel[fd] != 0 :: (fd, e.kernel[fd])
  }

  lemma StepEpollRefines(e: Epoll, w: Interest, c: Call)
    requires EpollRefines(e, w)
    ensures EpollRefines(StepEpoll(e, c), Want(w, c))
  {
  }

  /** What update and remove do to the kernel's set and to the tags: a channel without events leaves the set but
      stays registered, and is added again when it wants events. */
  lemma EpollAfterUpdate(e: Epoll, fd: nat, events: nat)
    requires TagsAgree(e)
    ensures var f := UpdateEpoll(e, fd, events);
            && !f.refused
            && f.kernel == (if fd in e.kernel && events == 0 then e.kernel - {fd} else e.kernel[fd := events])
            && f.tags == e.tags[fd := if fd in e.kernel && events == 0 then DELETED else ADDED]
    ensures var f := RemoveEpoll(e, fd); !f.refused && f.kernel == e.kernel - {fd} && f.tags == e.tags - {fd}
  {
    assert TagOf(e, fd) == ADDED <==> fd in e.kernel;
    assert fd !in e.kernel ==> e.kernel - {fd} == e.kernel;
    assert fd !in e.tags ==> TagOf(e, fd) == NEW && e.tags - {fd} == e.tags;
    assert fd in e.tags ==> e.tags == e.tags[fd := e.tags[fd]];
  }

  lemma EpollWatches(e: Epoll, w: Interest)
    requires EpollRefines(e, w)
    ensures WatchedByEpoll(e) == Watched(w)
  {
    assert forall fd :: fd in e.kernel && e.kernel[fd] != 0 <==> fd in w && w[fd] != 0;
  }

  // ----- both, over whole sequences of calls -----

  function RunPoll(p: Poll, cs: seq<Call>): Poll
    decreases |cs|
  {
    if cs == [] then p else RunPoll(StepPoll(p, cs[0]), cs[1..])
  }

  function RunEpoll(e: Epoll, cs: seq<Call>): Epoll
    decreases |cs|
  {
    if cs == [] then e else RunEpoll(StepEpoll(e, cs[0]), cs[1..])
  }

  function WantAll(w: Interest, cs: seq<Call>): Interest
    decreases |cs|
  {
    if cs == [] then w else WantAll(Want(w, cs[0]), cs[1..])
  }

  lemma {:induction false} RunsRefine(p: Poll, e: Epoll, w: Interest, cs: seq<Call>)
    requires PollRefines(p, w) && EpollRefines(e, w)
    ensures PollRefines(RunPoll(p, cs), WantAll(w, cs)) && EpollRefines(RunEpoll(e, cs), WantAll(w, cs))
    decreases |cs|
  {
    if cs != [] {
      match cs[0] {
        case Update(fd, events) => UpdatePollRefines(p, w, fd, events);
        case Remove(fd) => RemovePollRefines(p, w, fd);
      }
      StepEpollRefines(e, w, cs[0]);
      RunsRefine(StepPoll(p, cs[0]), StepEpoll(e, cs[0]), Want(w, cs[0]), cs[1..]);
    }
  }

  /** After any calls the two pollers watch the same events of the same descriptors, the indices and the
      tags are right, and no epoll_ctl call was one that the kernel refuses. */
  lemma PollersWatchTheSame(cs: seq<Call>)
    ensures var p, e := RunPoll(Poll([], map[]), cs), RunEpoll(Epoll(map[], map[], false), cs);
            WatchedByPoll(p) == WatchedByEpoll(e) && IndicesAgree(p) && TagsAgree(e)
  {
    var p, e := Poll([], map[]), Epoll(map[], map[], false);
    RunsRefine(p, e, map[], cs);
    PollWatches(RunPoll(p, cs), WantAll(map[], cs));
    EpollWatches(RunEpoll(e, cs), WantAll(map[], cs));
  }
}
