/** The two poller registries as values, and the one interest map both stand for. */
module PollerSpec {
  type Mask = bv16

  const NEW: int := -1
  const ADDED: int := 1
  const DELETED: int := 2

  // What the loop asks of a poller, for the channel with this descriptor and these events.
  datatype Call = Update(fd: nat, events: Mask) | Remove(fd: nat)

  function Ask(interest: map<nat, Mask>, call: Call): map<nat, Mask> {
    match call
    case Update(fd, events) => interest[fd := events]
    case Remove(fd) => interest - {fd}
  }

  // ----- poll: an array with holes closed by the last entry -----

  datatype PollFd = PollFd(fd: int, events: Mask, revents: Mask)

  // index maps every registered descriptor to its channel's index_.
  datatype PollState = PollState(fds: seq<PollFd>, index: map<nat, int>)

  // A negative entry is one that poll ignores; it encodes the descriptor as -fd - 1.
  function Decode(fd: int): nat {
    if fd < 0 then -fd - 1 else fd
  }

  function Entry(fd: nat, events: Mask): PollFd {
    PollFd(if events == 0 then -1 - (fd as int) else fd as int, events, 0)
  }

  function PollUpdate(s: PollState, fd: nat, events: Mask): PollState {
    if fd !in s.index then PollState(s.fds + [PollFd(fd, events, 0)], s.index[fd := |s.fds|])
    else if 0 <= s.index[fd] < |s.fds| then s.(fds := s.fds[s.index[fd] := Entry(fd, events)])
    else s
  }

  // The entry goes: the last one takes its place, and its channel's index with it.
  function CloseHole(s: PollState, i: int): PollState {
    var last := |s.fds| - 1;
    if !(0 <= i <= last) then s
    else if i == last then s.(fds := s.fds[..last])
    else PollState(s.fds[i := s.fds[last]][..last], s.index[Decode(s.fds[last].fd) := i])
  }

  function PollRemove(s: PollState, fd: nat): PollState {
    if fd !in s.index then s else CloseHole(s.(index := s.index - {fd}), s.index[fd])
  }

  function PollStep(s: PollState, call: Call): PollState {
    match call
    case Update(fd, events) => PollUpdate(s, fd, events)
    case Remove(fd) => PollRemove(s, fd)
  }

  /** Registered descriptors, array entries and stored indices correspond one to one. */
  ghost predicate PollGood(s: PollState) {
    && (forall fd :: fd in s.index ==> 0 <= s.index[fd] < |s.fds| && Decode(s.fds[s.index[fd]].fd) == fd)
    && (forall i :: 0 <= i < |s.fds| ==> Decode(s.fds[i].fd) in s.index && s.index[Decode(s.fds[i].fd)] == i)
    && (forall i :: 0 <= i < |s.fds| ==> (s.fds[i].fd < 0 ==> s.fds[i].events == 0))
  }

  // The array entry of each registered descriptor.
  function PollEntries(s: PollState): map<nat, PollFd>
    requires PollGood(s)
  {
    map fd | fd in s.index :: s.fds[s.index[fd]]
  }

  function PollInterest(s: PollState): map<nat, Mask>
    requires PollGood(s)
  {
    map fd | fd in PollEntries(s) :: PollEntries(s)[fd].events
  }

  // One entry replaced by another for the same descriptor.
  lemma ReplaceKeeps(s: PollState, fd: nat, e: PollFd)
    requires PollGood(s) && fd in s.index && Decode(e.fd) == fd && (e.fd < 0 ==> e.events == 0)
    ensures 0 <= s.index[fd] < |s.fds|
    ensures var t := s.(fds := s.fds[s.index[fd] := e]);
            PollGood(t) && PollEntries(t) == PollEntries(s)[fd := e]
  {
    var t := s.(fds := s.fds[s.index[fd] := e]);
    forall g | g in s.index && g != fd ensures s.index[g] != s.index[fd] {
      assert Decode(s.fds[s.index[g]].fd) == g;
    }
    assert forall i :: 0 <= i < |t.fds| ==> Decode(t.fds[i].fd) == Decode(s.fds[i].fd);
  }

  lemma AppendKeeps(s: PollState, fd: nat, e: PollFd)
    requires PollGood(s) && fd !in s.index && e.fd == fd
    ensures var t := PollState(s.fds + [e], s.index[fd := |s.fds|]);
            PollGood(t) && PollEntries(t) == PollEntries(s)[fd := e]
  {
  }

  // What an update leaves in the array: a channel that is new is entered as it is, even if it asks for nothing.
  function Updated(s: PollState, fd: nat, events: Mask): PollFd {
    if fd in s.index then Entry(fd, events) else PollFd(fd, events, 0)
  }

  lemma PollUpdateEntries(s: PollState, fd: nat, events: Mask)
    requires PollGood(s)
    ensures var t := PollUpdate(s, fd, events);
            PollGood(t) && PollEntries(t) == PollEntries(s)[fd := Updated(s, fd, events)]
  {
    if fd in s.index {
      ReplaceKeeps(s, fd, Entry(fd, events));
    } else {
      AppendKeeps(s, fd, PollFd(fd, events, 0));
    }
    hide PollGood, PollEntries;
  }

  lemma PollUpdateKeeps(s: PollState, fd: nat, events: Mask)
    requires PollGood(s)
    ensures var t := PollUpdate(s, fd, events);
            PollGood(t) && PollInterest(t) == PollInterest(s)[fd := events]
  {
    hide PollGood, PollEntries, PollUpdate;
    PollUpdateEntries(s, fd, events);
  }

  // The last entry leaves the array.
  lemma PopKeeps(s: PollState, fd: nat)
    requires PollGood(s) && fd in s.index && s.index[fd] == |s.fds| - 1
    ensures var t := PollState(s.fds[..|s.fds| - 1], s.index - {fd});
            PollGood(t) && PollEntries(t) == PollEntries(s) - {fd}
  {
    var t := PollState(s.fds[..|s.fds| - 1], s.index - {fd});
    forall g | g in t.index ensures 0 <= t.index[g] < |t.fds| {
      assert Decode(s.fds[s.index[g]].fd) == g;
    }
  }

  // Two entries trade places, and their channels' indices with them.
  function Swapped(s: PollState, i: nat, j: nat): PollState
    requires i < |s.fds| && j < |s.fds|
  {
    PollState(s.fds[i := s.fds[j]][j := s.fds[i]], s.index[Decode(s.fds[i].fd) := j][Decode(s.fds[j].fd) := i])
  }

  lemma SwapGood(s: PollState, i: nat, j: nat)
    requires PollGood(s) && i < j < |s.fds|
    ensures Decode(s.fds[i].fd) != Decode(s.fds[j].fd) && PollGood(Swapped(s, i, j))
    ensures forall g :: g in s.index && s.index[g] != i && s.index[g] != j ==>
              g in Swapped(s, i, j).index && Swapped(s, i, j).index[g] == s.index[g]
  {
    var (a, b) := (Decode(s.fds[i].fd), Decode(s.fds[j].fd));
    assert s.index[a] == i && s.index[b] == j;
    var t := Swapped(s, i, j);
    forall g | g in s.index && g != a && g != b ensures s.index[g] != i && s.index[g] != j {
      assert Decode(s.fds[s.index[g]].fd) == g;
    }
  }

  lemma SwapKeeps(s: PollState, i: nat, j: nat)
    requires PollGood(s) && i < j < |s.fds|
    ensures PollGood(Swapped(s, i, j)) && PollEntries(Swapped(s, i, j)) == PollEntries(s)
  {
    SwapGood(s, i, j);
    var t := Swapped(s, i, j);
    var (a, b) := (Decode(s.fds[i].fd), Decode(s.fds[j].fd));
    assert s.index[a] == i && s.index[b] == j;
    forall g | g in s.index ensures g in t.index && t.fds[t.index[g]] == s.fds[s.index[g]] {
    }
    assert t.index.Keys == s.index.Keys;
  }

  // Closing the hole with the last entry is trading places with it and dropping the end.
  lemma RemoveBySwap(s: PollState, fd: nat)
    requires PollGood(s) && fd in s.index && s.index[fd] != |s.fds| - 1
    ensures 0 <= s.index[fd] < |s.fds| - 1
    ensures var t := Swapped(s, s.index[fd], |s.fds| - 1);
            && fd in t.index && t.index[fd] == |t.fds| - 1
            && PollRemove(s, fd) == PollState(t.fds[..|t.fds| - 1], t.index - {fd})
  {
    var i, last := s.index[fd], |s.fds| - 1;
    var b := Decode(s.fds[last].fd);
    assert s.index[b] == last;
    var t := Swapped(s, i, last);
    hide PollGood;
    assert t.fds[..last] == s.fds[i := s.fds[last]][..last];
    assert t.index - {fd} == (s.index - {fd})[b := i];
  }

  lemma RemoveLast(s: PollState, fd: nat)
    requires PollGood(s) && fd in s.index && s.index[fd] == |s.fds| - 1
    ensures PollRemove(s, fd) == PollState(s.fds[..|s.fds| - 1], s.index - {fd})
  {
  }

  lemma RemoveSwappedKeeps(s: PollState, fd: nat)
    requires PollGood(s) && fd in s.index && s.index[fd] != |s.fds| - 1
    ensures var t := PollRemove(s, fd);
            PollGood(t) && PollEntries(t) == PollEntries(s) - {fd}
  {
    hide *;
    RemoveBySwap(s, fd);
    SwapKeeps(s, s.index[fd], |s.fds| - 1);
    PopKeeps(Swapped(s, s.index[fd], |s.fds| - 1), fd);
  }

  lemma PollRemoveEntries(s: PollState, fd: nat)
    requires PollGood(s)
    ensures var t := PollRemove(s, fd);
            PollGood(t) && PollEntries(t) == PollEntries(s) - {fd}
  {
    hide PollGood, PollEntries, PollRemove;
    if fd !in s.index {
      NothingRemoved(s, fd);
    } else if s.index[fd] == |s.fds| - 1 {
      PopKeeps(s, fd);
      RemoveLast(s, fd);
    } else {
      RemoveSwappedKeeps(s, fd);
    }
  }

  lemma NothingRemoved(s: PollState, fd: nat)
    requires PollGood(s) && fd !in s.index
    ensures PollRemove(s, fd) == s && PollEntries(s) - {fd} == PollEntries(s)
  {
  }

  lemma PollRemoveKeeps(s: PollState, fd: nat)
    requires PollGood(s)
    ensures var t := PollRemove(s, fd);
            PollGood(t) && PollInterest(t) == PollInterest(s) - {fd}
  {
    hide PollGood, PollEntries, PollRemove;
    PollRemoveEntries(s, fd);
  }

  // ----- epoll: three index values and the kernel's set -----

  datatype Ctl = Add | Modify | Delete

  // kernel is what epoll_ctl has built up; index maps every descriptor in channels_ to its channel's index_.
  datatype EpollState = EpollState(kernel: map<nat, Mask>, index: map<nat, int>)

  // epoll_ctl refuses to add what is there and to change or delete what is not.
  predicate CtlSucceeds(kernel: map<nat, Mask>, ctl: Ctl, fd: nat) {
    if ctl == Add then fd !in kernel else fd in kernel
  }

  function EpollCtl(kernel: map<nat, Mask>, ctl: Ctl, fd: nat, events: Mask): map<nat, Mask> {
    if !CtlSucceeds(kernel, ctl, fd) then kernel
    else if ctl == Delete then kernel - {fd}
    else kernel[fd := events]
  }

  // The operation a call issues, if any.
  function CtlFor(s: EpollState, call: Call): (bool, Ctl) {
    match call
    case Update(fd, events) =>
      if fd !in s.index || s.index[fd] == DELETED then (true, Add)
      else if events == 0 then (true, Delete)
      else (true, Modify)
    case Remove(fd) => (fd in s.index && s.index[fd] == ADDED, Delete)
  }

  function EpollStep(s: EpollState, call: Call): EpollState {
    var (issued, ctl) := CtlFor(s, call);
    match call
    case Update(fd, events) =>
      EpollState(EpollCtl(s.kernel, ctl, fd, events), s.index[fd := if ctl == Delete then DELETED else ADDED])
    case Remove(fd) =>
      EpollState(if issued then EpollCtl(s.kernel, ctl, fd, 0) else s.kernel, s.index - {fd})
  }

  /** The kernel watches exactly the channels whose index says added. */
  ghost predicate EpollGood(s: EpollState) {
    && (forall fd :: fd in s.index ==> s.index[fd] == ADDED || s.index[fd] == DELETED)
    && (forall fd :: fd in s.kernel <==> fd in s.index && s.index[fd] == ADDED)
  }

  function EpollInterest(s: EpollState): map<nat, Mask>
    requires EpollGood(s)
  {
    map fd | fd in s.index :: if s.index[fd] == ADDED then s.kernel[fd] else 0
  }

  /** No call ever makes epoll_ctl fail, and the registry and the kernel stay in step. */
  lemma EpollStepKeeps(s: EpollState, call: Call)
    requires EpollGood(s)
    ensures var t := EpollStep(s, call);
            && EpollGood(t) && EpollInterest(t) == Ask(EpollInterest(s), call)
            && (CtlFor(s, call).0 ==> CtlSucceeds(s.kernel, CtlFor(s, call).1, call.fd))
  {
  }

  // ----- both at once -----

  function PollRun(calls: seq<Call>): PollState {
    if calls == [] then PollState([], map[]) else PollStep(PollRun(calls[..|calls| - 1]), calls[|calls| - 1])
  }

  function EpollRun(calls: seq<Call>): EpollState {
    if calls == [] then EpollState(map[], map[]) else EpollStep(EpollRun(calls[..|calls| - 1]), calls[|calls| - 1])
  }

  function AskAll(calls: seq<Call>): map<nat, Mask> {
    if calls == [] then map[] else Ask(AskAll(calls[..|calls| - 1]), calls[|calls| - 1])
  }

  lemma {:induction false} PollRefines(calls: seq<Call>)
    ensures PollGood(PollRun(calls)) && PollInterest(PollRun(calls)) == AskAll(calls)
  {
    hide PollGood, PollUpdate, PollRemove, PollInterest;
    if calls == [] {
      PollEmpty();
    } else {
      var n := |calls| - 1;
      PollRefines(calls[..n]);
      match calls[n]
      case Update(fd, events) => PollUpdateKeeps(PollRun(calls[..n]), fd, events);
      case Remove(fd) => PollRemoveKeeps(PollRun(calls[..n]), fd);
    }
  }

  lemma PollEmpty()
    ensures PollGood(PollState([], map[])) && PollInterest(PollState([], map[])) == map[]
  {
  }

  lemma {:induction false} EpollRefines(calls: seq<Call>)
    ensures EpollGood(EpollRun(calls)) && EpollInterest(EpollRun(calls)) == AskAll(calls)
  {
    if calls != [] {
      var n := |calls| - 1;
      EpollRefines(calls[..n]);
      EpollStepKeeps(EpollRun(calls[..n]), calls[n]);
    }
  }

  /** Whatever the loop asks and in whatever order, no call of epoll_ctl ever fails. */
  lemma EpollNeverFails(calls: seq<Call>, k: nat)
    requires k < |calls| && CtlFor(EpollRun(calls[..k]), calls[k]).0
    ensures CtlSucceeds(EpollRun(calls[..k]).kernel, CtlFor(EpollRun(calls[..k]), calls[k]).1, calls[k].fd)
  {
    EpollRefines(calls[..k]);
    EpollStepKeeps(EpollRun(calls[..k]), calls[k]);
  }

  // What poll is told to watch: the entries that are not negative.
  function PollKernel(s: PollState): map<nat, Mask>
    requires PollGood(s)
  {
    map fd | fd in PollEntries(s) && PollEntries(s)[fd].fd >= 0 :: PollEntries(s)[fd].events
  }

  function NonEmpty(watch: map<nat, Mask>): map<nat, Mask> {
    map fd | fd in watch && watch[fd] != 0 :: watch[fd]
  }

  /** After the same calls both pollers watch the same descriptors for the same events. */
  lemma SameWatch(calls: seq<Call>)
    ensures PollGood(PollRun(calls)) && NonEmpty(PollKernel(PollRun(calls))) == NonEmpty(EpollRun(calls).kernel)
  {
    PollRefines(calls);
    EpollRefines(calls);
    hide PollRun, EpollRun;
    PollWatchIs(PollRun(calls));
    EpollWatchIs(EpollRun(calls));
  }

  lemma PollWatchIs(s: PollState)
    requires PollGood(s)
    ensures NonEmpty(PollKernel(s)) == NonEmpty(PollInterest(s))
  {
  }

  lemma EpollWatchIs(s: EpollState)
    requires EpollGood(s)
    ensures NonEmpty(s.kernel) == NonEmpty(EpollInterest(s))
  {
  }

  // ----- watching for nothing: errors and hang-ups are reported all the same -----

  // How many updates in a row, up to now, asked for nothing on this descriptor.
  function Quiet(calls: seq<Call>, fd: nat): nat {
    if calls == [] then 0
    else
      var n := |calls| - 1;
      if calls[n].fd != fd then Quiet(calls[..n], fd)
      else if calls[n].Update? && calls[n].events == 0 then Quiet(calls[..n], fd) + 1
      else 0
  }

  // Whether nothing was ever asked for on this descriptor since it was last registered.
  function Unused(calls: seq<Call>, fd: nat): bool {
    if calls == [] then true
    else
      var n := |calls| - 1;
      if calls[n].fd != fd then Unused(calls[..n], fd)
      else calls[n].Remove? || (calls[n].events == 0 && Unused(calls[..n], fd))
  }

  // epoll adds a descriptor again at every other update that asks for nothing; poll watches one for nothing only when it
  // is new.
  predicate AddedAgain(calls: seq<Call>, fd: nat) {
    var n := Quiet(calls, fd);
    n > 1 && (n % 2 == 1 <==> Unused(calls, fd))
  }

  lemma {:induction false} PollWatches(calls: seq<Call>, fd: nat)
    ensures PollGood(PollRun(calls))
    ensures fd in AskAll(calls) <==> fd in PollEntries(PollRun(calls))
    ensures fd !in AskAll(calls) ==> Quiet(calls, fd) == 0 && Unused(calls, fd)
    ensures fd in AskAll(calls) ==>
              && (AskAll(calls)[fd] == 0 <==> Quiet(calls, fd) > 0) && (Unused(calls, fd) ==> AskAll(calls)[fd] == 0)
              && (PollEntries(PollRun(calls))[fd].fd >= 0 <==>
                    AskAll(calls)[fd] != 0 || (Unused(calls, fd) && Quiet(calls, fd) == 1))
  {
    hide PollGood, PollEntries, PollUpdate, PollRemove;
    if calls == [] {
      EmptyEntries();
    } else {
      var n := |calls| - 1;
      PollWatches(calls[..n], fd);
      var s := PollRun(calls[..n]);
      match calls[n]
      case Update(g, events) =>
        PollUpdateEntries(s, g, events);
        EntryKnown(s, g);
      case Remove(g) => PollRemoveEntries(s, g);
    }
  }

  lemma EntryKnown(s: PollState, fd: nat)
    requires PollGood(s)
    ensures fd in PollEntries(s) <==> fd in s.index
  {
  }

  lemma EmptyEntries()
    ensures PollGood(PollState([], map[])) && PollEntries(PollState([], map[])) == map[]
  {
  }

  lemma {:induction false} EpollWatches(calls: seq<Call>, fd: nat)
    ensures fd in EpollRun(calls).kernel <==>
              fd in AskAll(calls) && (AskAll(calls)[fd] != 0 || (Quiet(calls, fd) % 2 == 1 <==> Unused(calls, fd)))
    ensures fd in EpollRun(calls).kernel ==> EpollRun(calls).kernel[fd] == AskAll(calls)[fd]
  {
    hide EpollInterest, EpollGood, EpollStep, PollGood, PollEntries, PollRun;
    if calls != [] {
      var n := |calls| - 1;
      EpollWatches(calls[..n], fd);
      EpollRefines(calls[..n]);
      PollWatches(calls[..n], fd);
      KernelStep(EpollRun(calls[..n]), calls[n], fd);
      KernelKnown(EpollRun(calls[..n]), fd);
    }
  }

  lemma KernelKnown(s: EpollState, fd: nat)
    requires EpollGood(s)
    ensures fd in EpollInterest(s) <==> fd in s.index
    ensures fd in s.kernel ==> fd in s.index
  {
  }

  // Each call changes the kernel for its own descriptor: an update drops one that is there and asks for nothing.
  lemma KernelStep(s: EpollState, call: Call, fd: nat)
    requires EpollGood(s)
    ensures var t := EpollStep(s, call);
            && (fd != call.fd ==> (fd in t.kernel <==> fd in s.kernel) && (fd in s.kernel ==> t.kernel[fd] == s.kernel[fd]))
            && (fd == call.fd ==>
                  && (fd in t.kernel <==> call.Update? && !(fd in s.kernel && call.events == 0))
                  && (fd in t.kernel ==> t.kernel[fd] == call.events))
  {
  }

  /** After the same calls the two kernels watch the same descriptors, those watched for nothing included, if and only if
      none has been added to epoll again by an update that asked for nothing once more. */
  lemma SameKernelIff(calls: seq<Call>)
    ensures PollGood(PollRun(calls))
    ensures PollKernel(PollRun(calls)) == EpollRun(calls).kernel <==> forall fd :: fd in AskAll(calls) ==> !AddedAgain(calls, fd)
  {
    PollRefines(calls);
    hide PollRun, EpollRun, AskAll, Quiet, Unused, PollGood, PollEntries;
    var p, e := PollKernel(PollRun(calls)), EpollRun(calls).kernel;
    forall fd
      ensures fd in p ==> fd in AskAll(calls) && p[fd] == AskAll(calls)[fd]
      ensures fd in e ==> fd in AskAll(calls) && e[fd] == AskAll(calls)[fd]
      ensures (fd in p <==> fd in e) <==> !(fd in AskAll(calls) && AddedAgain(calls, fd))
    {
      KernelsAt(calls, fd);
    }
    hide PollKernel, AddedAgain;
  }

  lemma KernelsAt(calls: seq<Call>, fd: nat)
    ensures PollGood(PollRun(calls))
    ensures var (p, e) := (PollKernel(PollRun(calls)), EpollRun(calls).kernel);
            && (fd in p ==> fd in AskAll(calls) && p[fd] == AskAll(calls)[fd])
            && (fd in e ==> fd in AskAll(calls) && e[fd] == AskAll(calls)[fd])
            && ((fd in p <==> fd in e) <==> !(fd in AskAll(calls) && AddedAgain(calls, fd)))
  {
    PollRefines(calls);
    PollWatches(calls, fd);
    EpollWatches(calls, fd);
    hide PollRun, EpollRun, AskAll, Quiet, Unused, PollGood, PollEntries;
  }

  /** The difference is real: a descriptor that asked for something and then twice for nothing is watched by epoll only. */
  lemma TwiceForNothing(fd: nat, events: Mask)
    requires events != 0
    ensures var calls := [Update(fd, events), Update(fd, 0), Update(fd, 0)];
            && PollGood(PollRun(calls)) && fd !in PollKernel(PollRun(calls))
            && fd in EpollRun(calls).kernel && EpollRun(calls).kernel[fd] == 0
  {
    var calls := [Update(fd, events), Update(fd, 0), Update(fd, 0)];
    assert calls[..2] == [Update(fd, events), Update(fd, 0)] && calls[..2][..1] == [Update(fd, events)];
    assert Quiet(calls[..2][..1], fd) == 0 && !Unused(calls[..2][..1], fd);
    assert Quiet(calls, fd) == 2 && !Unused(calls, fd);
    assert fd in AskAll(calls) && AskAll(calls)[fd] == 0;
    hide PollRun, EpollRun, AskAll, Quiet, Unused, PollGood, PollEntries;
    PollWatches(calls, fd);
    EpollWatches(calls, fd);
  }

  // ----- reporting events -----

  // poll leaves the entries as they are but for revents, where negative entries get none; events are never negative.
  ghost predicate Polled(s: PollState) {
    && PollGood(s)
    && forall i :: 0 <= i < |s.fds| ==> s.fds[i].revents < 0x8000 && (s.fds[i].fd < 0 ==> s.fds[i].revents == 0)
  }

  // The descriptors with events, in array order.
  function Ready(fds: seq<PollFd>): seq<int> {
    if fds == [] then []
    else
      var n := |fds| - 1;
      Ready(fds[..n]) + (if fds[n].revents > 0 then [fds[n].fd] else [])
  }

  lemma {:induction false} ReadyIff(fds: seq<PollFd>, fd: int)
    ensures fd in Ready(fds) <==> exists i :: 0 <= i < |fds| && fds[i].fd == fd && fds[i].revents > 0
  {
    if fds != [] {
      var n := |fds| - 1;
      ReadyIff(fds[..n], fd);
      if exists i :: 0 <= i < n && fds[i].fd == fd && fds[i].revents > 0 {
        var i :| 0 <= i < n && fds[i].fd == fd && fds[i].revents > 0;
        assert fds[..n][i].fd == fd;
      }
    }
  }

  lemma {:induction false} ReadyPrefix(fds: seq<PollFd>, k: nat)
    requires k <= |fds|
    ensures Ready(fds[..k]) <= Ready(fds)
  {
    if k < |fds| {
      ReadyPrefix(fds[..|fds| - 1], k);
      assert fds[..|fds| - 1][..k] == fds[..k];
    } else {
      assert fds[..k] == fds;
    }
  }

  /** Every registered descriptor with events is ready exactly once, and nothing else is. */
  lemma ReadyOnce(s: PollState)
    requires Polled(s)
    ensures forall fd :: fd in Ready(s.fds) <==> fd in s.index && s.fds[s.index[fd]].revents > 0
    ensures forall i, j :: 0 <= i < j < |Ready(s.fds)| ==> Ready(s.fds)[i] != Ready(s.fds)[j]
  {
    forall fd: int ensures fd in Ready(s.fds) <==> fd in s.index && s.fds[s.index[fd]].revents > 0 {
      ReadyIff(s.fds, fd);
      if fd in Ready(s.fds) {
        var i :| 0 <= i < |s.fds| && s.fds[i].fd == fd && s.fds[i].revents > 0;
        assert Decode(s.fds[i].fd) == fd;
      }
    }
    ReadyDistinct(s.fds);
  }

  lemma {:induction false} ReadyDistinct(fds: seq<PollFd>)
    requires forall i, j :: 0 <= i < j < |fds| ==> Decode(fds[i].fd) != Decode(fds[j].fd)
    ensures forall i, j :: 0 <= i < j < |Ready(fds)| ==> Ready(fds)[i] != Ready(fds)[j]
  {
    if fds != [] {
      var n := |fds| - 1;
      ReadyDistinct(fds[..n]);
      ReadyIff(fds[..n], fds[n].fd);
      forall i | 0 <= i < |Ready(fds[..n])| ensures Ready(fds[..n])[i] in Ready(fds[..n]) {
      }
    }
  }
}
