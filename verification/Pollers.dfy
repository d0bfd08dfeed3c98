/** Channels and the two pollers as the loop uses them. */
module Pollers {
  import opened PollerSpec

  const READ: Mask := 0x3       // POLLIN | POLLPRI
  const WRITE: Mask := 0x4      // POLLOUT
  const ERR: Mask := 0x8
  const HUP: Mask := 0x10

  datatype Callback = Close | Error | Read | Write

  function Turn(c: Callback): nat {
    match c case Close => 0 case Error => 1 case Read => 2 case Write => 3
  }

  class Channel {
    const fd: nat
    var events: Mask
    var revents: Mask
    var index: int

    constructor (fd: nat)
      ensures this.fd == fd && events == 0 && index == NEW
    {
      this.fd, events, revents, index := fd, 0, 0, NEW;
    }

    /** Each callback runs at most once, in a fixed order, and an event never both closes and reads. */
    method HandleEventWithGuard() returns (called: seq<Callback>)
      ensures Close in called <==> revents & HUP != 0 && revents & READ == 0
      ensures Error in called <==> revents & ERR != 0
      ensures Read in called <==> revents & READ != 0
      ensures Write in called <==> revents & WRITE != 0
      ensures forall i, j :: 0 <= i < j < |called| ==> Turn(called[i]) < Turn(called[j])
      ensures !(Close in called && Read in called)
    {
      called := [];
      if revents & HUP != 0 && revents & READ == 0 {
        called := called + [Close];
      }
      if revents & ERR != 0 {
        called := called + [Error];
      }
      if revents & READ != 0 {
        called := called + [Read];
      }
      if revents & WRITE != 0 {
        called := called + [Write];
      }
    }
  }

  class PollPoller {
    var pollfds: seq<PollFd>
    var channels: map<nat, Channel>

    ghost function Model(): PollState
      reads this, channels.Values`index
    {
      PollState(pollfds, map fd | fd in channels :: channels[fd].index)
    }

    ghost predicate Valid()
      reads this, channels.Values`index
    {
      PollGood(Model()) && forall fd :: fd in channels ==> channels[fd].fd == fd
    }

    // A channel is registered here under its own descriptor, or new with a descriptor nobody else has.
    ghost predicate Knows(ch: Channel)
      reads this, ch`index
    {
      if ch.index == NEW then ch.fd !in channels else ch.fd in channels && channels[ch.fd] == ch
    }

    constructor ()
      ensures Valid() && Model() == PollState([], map[])
    {
      pollfds, channels := [], map[];
    }

    method UpdateChannel(ch: Channel)
      requires Valid() && Knows(ch)
      modifies this, ch`index
      ensures Valid() && Knows(ch) && ch.index != NEW && channels == old(channels)[ch.fd := ch]
      ensures Model() == PollUpdate(old(Model()), ch.fd, ch.events)
    {
      hide PollGood, PollInterest, PollUpdate;
      ghost var s := Model();
      PollUpdateKeeps(s, ch.fd, ch.events);
      IndexOf(s, ch.fd);
      if ch.index == NEW {
        Register(ch);
      } else {
        Refresh(ch);
      }
      assert Model() == PollUpdate(s, ch.fd, ch.events);
    }

    method Register(ch: Channel)
      requires ch.fd !in channels && forall fd :: fd in channels ==> channels[fd].fd == fd
      modifies this, ch`index
      ensures channels == old(channels)[ch.fd := ch] && ch.index == old(|pollfds|)
      ensures Model() == PollUpdate(old(Model()), ch.fd, ch.events)
    {
      ghost var s := Model();
      var pfd := PollFd(ch.fd, ch.events, 0);
      pollfds := pollfds + [pfd];
      ch.index := |pollfds| - 1;
      channels := channels[ch.fd := ch];
      assert Model().index == s.index[ch.fd := |s.fds|];
    }

    method Refresh(ch: Channel)
      requires ch.fd in channels && channels[ch.fd] == ch && 0 <= ch.index < |pollfds|
      modifies `pollfds
      ensures Model() == PollUpdate(old(Model()), ch.fd, ch.events)
    {
      var fd: int := ch.fd;
      if ch.events == 0 {
        fd := -fd - 1;
      }
      pollfds := pollfds[ch.index := PollFd(fd, ch.events, 0)];
    }

    // These channels carry the events that poll put into their entries.
    ghost predicate Reported(active: seq<Channel>)
      reads this, channels.Values
    {
      forall ch :: ch in active ==>
        ch in channels.Values && 0 <= ch.index < |pollfds| && ch.revents == pollfds[ch.index].revents > 0
    }

    /** Stops as soon as it has seen as many entries with events as poll counted. */
    method FillActiveChannels(numEvents: nat) returns (active: seq<Channel>)
      requires Valid() && Polled(Model())
      modifies channels.Values`revents
      ensures var ready := Ready(pollfds);
              Fds(active) == if numEvents < |ready| then ready[..numEvents] else ready
      ensures Reported(active)
    {
      EntriesHere();
      ghost var seen;
      active, seen := Scan(numEvents);
      hide PollGood, Polled, Reported, Ready;
      FdsLength(active);
      ReadyUpTo(pollfds, seen, numEvents);
    }

    method Scan(numEvents: nat) returns (active: seq<Channel>, ghost seen: nat)
      requires Found()
      modifies channels.Values`revents
      ensures seen <= |pollfds| && Fds(active) == Ready(pollfds[..seen]) && Reported(active)
      ensures |active| <= numEvents && (seen == |pollfds| || |active| == numEvents)
    {
      active := [];
      var left: nat := numEvents;
      var i := 0;
      NothingVisited();
      hide Reported, Found, Ready, Fds;
      while i < |pollfds| && left > 0
        invariant i <= |pollfds| && left + |active| == numEvents && Found()
        invariant Fds(active) == Ready(pollfds[..i]) && Reported(active)
      {
        if pollfds[i].revents > 0 {
          left := left - 1;
        }
        active := Visit(i, active);
        i := i + 1;
      }
      seen := i;
    }

    // The channel of an entry with events is found under the entry's descriptor.
    ghost predicate Found()
      reads this, channels.Values
    {
      forall i :: 0 <= i < |pollfds| && pollfds[i].revents > 0 ==>
        && pollfds[i].fd in channels && channels[pollfds[i].fd] in channels.Values
        && channels[pollfds[i].fd].index == i && channels[pollfds[i].fd].fd == pollfds[i].fd
    }

    method Visit(i: nat, active: seq<Channel>) returns (more: seq<Channel>)
      requires i < |pollfds| && Found() && Fds(active) == Ready(pollfds[..i]) && Reported(active)
      modifies channels.Values`revents
      ensures Found() && Fds(more) == Ready(pollfds[..i + 1]) && Reported(more)
      ensures |more| == |active| + (if pollfds[i].revents > 0 then 1 else 0)
    {
      hide Ready, Reported, Fds;
      ReadyNext(pollfds, i);
      more := active;
      if pollfds[i].revents > 0 && pollfds[i].fd in channels {
        more := Report(i, channels[pollfds[i].fd], active);
      }
    }

    method Report(i: nat, ch: Channel, active: seq<Channel>) returns (more: seq<Channel>)
      requires i < |pollfds| && pollfds[i].revents > 0 && Reported(active)
      requires ch in channels.Values && ch.index == i
      modifies ch`revents
      ensures more == active + [ch] && Reported(more) && Fds(more) == Fds(active) + [ch.fd]
    {
      ch.revents := pollfds[i].revents;
      more := active + [ch];
      assert more[..|active|] == active;
    }

    lemma EntriesHere()
      requires Valid() && Polled(Model())
      ensures Found()
    {
      EntriesKnown(Model());
      hide PollGood, PollInterest;
    }

    lemma NothingVisited()
      ensures Reported([]) && Fds([]) == Ready(pollfds[..0])
    {
    }

    method RemoveChannel(ch: Channel)
      requires Valid() && Knows(ch)
      modifies this, ch`index, channels.Values`index
      ensures Valid() && Knows(ch) && ch.index == NEW && channels == old(channels) - {ch.fd}
      ensures Model() == PollRemove(old(Model()), ch.fd)
    {
      hide PollGood, PollInterest, Decode, PollerSpec.CloseHole;
      ghost var s := Model();
      PollRemoveKeeps(s, ch.fd);
      IndexOf(s, ch.fd);
      LastEntry(s);
      var index := ch.index;
      Forget(ch);
      if 0 <= index < |pollfds| {
        CloseHole(index);
      }
      Unset(ch);
      assert Model() == PollRemove(s, ch.fd);
    }

    method Forget(ch: Channel)
      modifies `channels
      ensures channels == old(channels) - {ch.fd}
      ensures Model() == old(Model()).(index := old(Model().index) - {ch.fd})
    {
      ghost var index := Model().index;
      channels := channels - {ch.fd};
      assert Model().index == index - {ch.fd};
    }

    method Unset(ch: Channel)
      requires ch !in channels.Values
      modifies ch`index
      ensures ch.index == NEW && Model() == old(Model())
    {
      ch.index := NEW;
    }

    // The last entry takes the place of the one that goes, and its channel is told.
    method CloseHole(index: nat)
      requires forall fd :: fd in channels ==> channels[fd].fd == fd
      requires index < |pollfds|
      requires index != |pollfds| - 1 ==> Decode(pollfds[|pollfds| - 1].fd) in channels
      modifies `pollfds, channels.Values`index
      ensures Model() == PollerSpec.CloseHole(old(Model()), index)
    {
      var lastIndex := |pollfds| - 1;
      ghost var s := Model();
      if index != lastIndex {
        var movedFd := pollfds[lastIndex].fd;
        if movedFd < 0 {
          movedFd := -movedFd - 1;
        }
        pollfds := pollfds[index := pollfds[lastIndex]][lastIndex := pollfds[index]];
        channels[movedFd].index := index;
        assert Model().index == s.index[movedFd := index];
      }
      pollfds := pollfds[..lastIndex];
    }
  }

  function Fds(active: seq<Channel>): seq<int> {
    if active == [] then [] else Fds(active[..|active| - 1]) + [active[|active| - 1].fd]
  }

  class EPollPoller {
    var channels: map<nat, Channel>
    var kernel: map<nat, Mask>    // what epoll_ctl has built up

    ghost function Model(): EpollState
      reads this, channels.Values`index
    {
      EpollState(kernel, map fd | fd in channels :: channels[fd].index)
    }

    ghost predicate Valid()
      reads this, channels.Values`index
    {
      EpollGood(Model()) && forall fd :: fd in channels ==> channels[fd].fd == fd
    }

    ghost predicate Knows(ch: Channel)
      reads this, ch`index
    {
      if ch.index == NEW then ch.fd !in channels else ch.fd in channels && channels[ch.fd] == ch
    }

    constructor ()
      ensures Valid() && Model() == EpollState(map[], map[])
    {
      channels, kernel := map[], map[];
    }

    /** epoll_ctl is only asked for what it can do. */
    method Control(operation: Ctl, ch: Channel)
      requires CtlSucceeds(kernel, operation, ch.fd)
      modifies `kernel
      ensures kernel == EpollCtl(old(kernel), operation, ch.fd, ch.events)
    {
      if operation == Delete {
        kernel := kernel - {ch.fd};
      } else {
        kernel := kernel[ch.fd := ch.events];
      }
    }

    method UpdateChannel(ch: Channel)
      requires Valid() && Knows(ch)
      modifies this, ch`index
      ensures Valid() && Knows(ch) && ch.index != NEW && channels == old(channels)[ch.fd := ch]
      ensures Model() == EpollStep(old(Model()), Update(ch.fd, ch.events))
    {
      EpollStepKeeps(Model(), Update(ch.fd, ch.events));
      KnownIndex(Model(), ch.fd);
      hide EpollGood, EpollInterest, EpollCtl, CtlSucceeds;
      if ch.index == NEW || ch.index == DELETED {
        Enroll(ch);
      } else {
        Change(ch);
      }
    }

    // A channel the kernel watches is changed there, or dropped when it asks for nothing.
    method Change(ch: Channel)
      requires ch.fd in channels && channels[ch.fd] == ch && forall fd :: fd in channels ==> channels[fd].fd == fd
      requires ch.index == ADDED && ch.fd in kernel
      modifies `kernel, ch`index
      ensures ch.index == (if ch.events == 0 then DELETED else ADDED) && channels == old(channels)[ch.fd := ch]
      ensures Model() == EpollStep(old(Model()), Update(ch.fd, ch.events))
    {
      ghost var s := Model();
      if ch.events == 0 {
        Control(Delete, ch);
        ch.index := DELETED;
      } else {
        Control(Modify, ch);
      }
      assert Model().index == s.index[ch.fd := ch.index];
      assert channels == channels[ch.fd := ch];
    }

    // A channel that is new or was dropped goes back to the kernel.
    method Enroll(ch: Channel)
      requires forall fd :: fd in channels ==> channels[fd].fd == fd
      requires ch.index == NEW || (ch.fd in channels && channels[ch.fd] == ch)
      requires CtlSucceeds(kernel, Add, ch.fd)
      modifies this, ch`index
      ensures ch.index == ADDED && channels == old(channels)[ch.fd := ch]
      ensures Model() == EpollState(EpollCtl(old(kernel), Add, ch.fd, ch.events), old(Model().index)[ch.fd := ADDED])
    {
      ghost var s := Model();
      if ch.index == NEW {
        channels := channels[ch.fd := ch];
      }
      ch.index := ADDED;
      Control(Add, ch);
      assert Model().index == s.index[ch.fd := ADDED];
    }

    method RemoveChannel(ch: Channel)
      requires Valid() && Knows(ch)
      modifies this, ch`index
      ensures Valid() && Knows(ch) && ch.index == NEW && channels == old(channels) - {ch.fd}
      ensures Model() == EpollStep(old(Model()), Remove(ch.fd))
    {
      ghost var s := Model();
      EpollStepKeeps(s, Remove(ch.fd));
      KnownIndex(s, ch.fd);
      hide EpollGood, EpollInterest;
      channels := channels - {ch.fd};
      var index := ch.index;
      if index == ADDED {
        Control(Delete, ch);
      }
      ch.index := NEW;
      assert Model().index == EpollStep(s, Remove(ch.fd)).index;
    }
  }

  // ----- the loop's poller, and the channels that keep it up to date -----

  datatype Poller = UsesPoll(poll: PollPoller) | UsesEpoll(epoll: EPollPoller) {
    ghost function Self(): set<object> {
      if UsesPoll? then {poll} else {epoll}
    }

    ghost function Channels(): map<nat, Channel>
      reads Self()
    {
      if UsesPoll? then poll.channels else epoll.channels
    }

    ghost predicate Valid()
      reads Self(), Channels().Values`index
    {
      if UsesPoll? then poll.Valid() else epoll.Valid()
    }

    ghost predicate Knows(ch: Channel)
      reads Self(), ch`index
    {
      if UsesPoll? then poll.Knows(ch) else epoll.Knows(ch)
    }

    // What the poller watches for, by descriptor.
    ghost function Interest(): map<nat, Mask>
      requires Valid()
      reads Self(), Channels().Values`index
    {
      if UsesPoll? then PollInterest(poll.Model()) else EpollInterest(epoll.Model())
    }

    // Channel::update()
    method Update(ch: Channel)
      requires Valid() && Knows(ch)
      modifies Self(), ch`index
      ensures Valid() && Knows(ch) && Channels() == old(Channels())[ch.fd := ch]
      ensures Interest() == old(Interest())[ch.fd := ch.events]
    {
      hide PollInterest, EpollInterest;
      if UsesPoll? {
        PollUpdateKeeps(poll.Model(), ch.fd, ch.events);
        poll.UpdateChannel(ch);
      } else {
        EpollStepKeeps(epoll.Model(), Call.Update(ch.fd, ch.events));
        epoll.UpdateChannel(ch);
      }
    }

    method EnableReading(ch: Channel)
      requires Valid() && Knows(ch)
      modifies Self(), ch`events, ch`index
      ensures Valid() && Knows(ch) && Channels() == old(Channels())[ch.fd := ch]
      ensures ch.events & READ == READ && ch.events & !READ == old(ch.events) & !READ
      ensures Interest() == old(Interest())[ch.fd := ch.events]
    {
      hide Valid, Knows, Interest;
      ch.events := ch.events | READ;
      Update(ch);
    }

    method DisableReading(ch: Channel)
      requires Valid() && Knows(ch)
      modifies Self(), ch`events, ch`index
      ensures Valid() && Knows(ch) && Channels() == old(Channels())[ch.fd := ch]
      ensures ch.events & READ == 0 && ch.events & !READ == old(ch.events) & !READ
      ensures Interest() == old(Interest())[ch.fd := ch.events]
    {
      hide Valid, Knows, Interest;
      ch.events := ch.events & !READ;
      Update(ch);
    }

    method EnableWriting(ch: Channel)
      requires Valid() && Knows(ch)
      modifies Self(), ch`events, ch`index
      ensures Valid() && Knows(ch) && Channels() == old(Channels())[ch.fd := ch]
      ensures ch.events & WRITE == WRITE && ch.events & !WRITE == old(ch.events) & !WRITE
      ensures Interest() == old(Interest())[ch.fd := ch.events]
    {
      hide Valid, Knows, Interest;
      ch.events := ch.events | WRITE;
      Update(ch);
    }

    method DisableWriting(ch: Channel)
      requires Valid() && Knows(ch)
      modifies Self(), ch`events, ch`index
      ensures Valid() && Knows(ch) && Channels() == old(Channels())[ch.fd := ch]
      ensures ch.events & WRITE == 0 && ch.events & !WRITE == old(ch.events) & !WRITE
      ensures Interest() == old(Interest())[ch.fd := ch.events]
    {
      hide Valid, Knows, Interest;
      ch.events := ch.events & !WRITE;
      Update(ch);
    }

    method DisableAll(ch: Channel)
      requires Valid() && Knows(ch)
      modifies Self(), ch`events, ch`index
      ensures Valid() && Knows(ch) && Channels() == old(Channels())[ch.fd := ch]
      ensures ch.events == 0 && Interest() == old(Interest())[ch.fd := 0]
    {
      hide Valid, Knows, Interest;
      ch.events := 0;
      Update(ch);
    }

    // Channel::remove()
    method Remove(ch: Channel)
      requires Valid() && Knows(ch)
      modifies Self(), ch`index, Channels().Values`index
      ensures Valid() && Knows(ch) && ch.index == NEW && Channels() == old(Channels()) - {ch.fd}
      ensures Interest() == old(Interest()) - {ch.fd}
    {
      hide PollInterest, EpollInterest;
      if UsesPoll? {
        PollRemoveKeeps(poll.Model(), ch.fd);
        poll.RemoveChannel(ch);
      } else {
        EpollStepKeeps(epoll.Model(), Call.Remove(ch.fd));
        epoll.RemoveChannel(ch);
      }
    }
  }

  lemma {:induction false} FdsLength(active: seq<Channel>)
    ensures |Fds(active)| == |active|
  {
    if active != [] { FdsLength(active[..|active| - 1]); }
  }

  lemma ReadyNext(fds: seq<PollFd>, i: nat)
    requires i < |fds|
    ensures Ready(fds[..i + 1]) == Ready(fds[..i]) + (if fds[i].revents > 0 then [fds[i].fd] else [])
  {
    assert fds[..i + 1][..i] == fds[..i];
  }

  // Stopping at the count misses nothing, and stopping at the end has seen everything.
  lemma ReadyUpTo(fds: seq<PollFd>, i: nat, n: nat)
    requires i <= |fds| && |Ready(fds[..i])| <= n && (i == |fds| || |Ready(fds[..i])| == n)
    ensures Ready(fds[..i]) == if n < |Ready(fds)| then Ready(fds)[..n] else Ready(fds)
  {
    ReadyPrefix(fds, i);
    if i == |fds| { assert fds[..i] == fds; }
  }

  // An entry with events is a registered descriptor, and its channel's index leads back to it.
  lemma EntriesKnown(s: PollState)
    requires Polled(s)
    ensures forall i :: 0 <= i < |s.fds| && s.fds[i].revents > 0 ==>
              s.fds[i].fd >= 0 && s.fds[i].fd in s.index && s.index[s.fds[i].fd] == i
  {
  }

  lemma KnownIndex(s: EpollState, fd: nat)
    requires EpollGood(s)
    ensures fd in s.index ==> s.index[fd] == ADDED || s.index[fd] == DELETED
  {
  }

  lemma IndexOf(s: PollState, fd: nat)
    requires PollGood(s)
    ensures fd in s.index ==> 0 <= s.index[fd] < |s.fds|
  {
  }

  lemma LastEntry(s: PollState)
    requires PollGood(s)
    ensures s.fds != [] ==>
              var fd := Decode(s.fds[|s.fds| - 1].fd); fd in s.index && s.index[fd] == |s.fds| - 1
  {
  }
}
