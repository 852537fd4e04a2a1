/** The poll(2) multiplexer (net/Poller.cc): a dense vector of descriptors, indexed by the channels
    themselves, with removal by swapping in the last slot. */
module DensePolling {
  import opened Channels

  datatype PollFd = PollFd(fd: int, events: Mask, revents: Mask)

  /** A slot whose descriptor poll is to ignore holds it as -fd - 1. */
  function Encoded(fd: int, ignore: bool): int {
    if ignore then -fd - 1 else fd
  }

  function Decoded(fd: int): (r: nat)
    ensures fd == Encoded(r, fd < 0)
  {
    if fd < 0 then -fd - 1 else fd
  }

  /** `revents > 0`, for a signed 16-bit field. */
  predicate HasEvents(slot: PollFd) {
    0 < slot.revents < 0x8000
  }

  /** The slots with events, in slot order. */
  function Ready(slots: seq<PollFd>): (r: seq<PollFd>)
    ensures |r| <= |slots|
  {
    if slots == [] then []
    else
      var last := slots[|slots| - 1];
      Ready(slots[..|slots| - 1]) + if HasEvents(last) then [last] else []
  }

  /** How many of the first `n` slots have events. */
  ghost function ReadyCount(slots: seq<PollFd>, n: nat): nat
    requires n <= |slots|
  {
    |Ready(slots[..n])|
  }

  lemma {:induction false} ReadyMembers(slots: seq<PollFd>)
    ensures forall slot :: slot in Ready(slots) <==> slot in slots && 1 <= slot.revents as int <= 32767
  {
    if slots != [] {
      ReadyMembers(slots[..|slots| - 1]);
      assert slots == slots[..|slots| - 1] + [slots[|slots| - 1]];
    }
  }

  lemma {:induction false} ReadyPrefix(slots: seq<PollFd>, i: nat)
    requires i <= |slots|
    ensures Ready(slots[..i]) <= Ready(slots)
    decreases |slots| - i
  {
    if i < |slots| {
      assert slots[..i + 1][..i] == slots[..i];
      ReadyPrefix(slots, i + 1);
    } else {
      assert slots[..i] == slots;
    }
  }

  /** No descriptor occurs in two slots. */
  ghost predicate AllDistinct(slots: seq<PollFd>) {
    forall j, k {:trigger Decoded(slots[j].fd), Decoded(slots[k].fd)} | 0 <= j < k < |slots| ::
      Decoded(slots[j].fd) != Decoded(slots[k].fd)
  }

  function SwapRemoved(slots: seq<PollFd>, i: nat): (r: seq<PollFd>)
    requires i < |slots|
    ensures |r| == |slots| - 1
  {
    slots[i := slots[|slots| - 1]][..|slots| - 1]
  }

  /** Swap-with-last loses exactly the slot it was asked to drop. */
  lemma SwapRemovedKeepsTheRest(slots: seq<PollFd>, i: nat)
    requires i < |slots|
    ensures multiset(SwapRemoved(slots, i)) == multiset(slots) - multiset{slots[i]}
  {
    var last := slots[|slots| - 1];
    var swapped := slots[i := last];
    assert slots == slots[..i] + [slots[i]] + slots[i + 1..];
    assert swapped == slots[..i] + [last] + slots[i + 1..];
    assert swapped == SwapRemoved(slots, i) + [last];
    assert multiset(swapped) == multiset(slots[..i]) + multiset{last} + multiset(slots[i + 1..]);
    assert multiset(slots) == multiset(slots[..i]) + multiset{slots[i]} + multiset(slots[i + 1..]);
  }

  /** The dense index: descriptors and slots are in bijection, and a slot shows its descriptor
      negated exactly if that has been disabled since it was registered. */
  ghost predicate Dense(slots: seq<PollFd>, index: map<nat, nat>, muted: set<nat>) {
    && muted <= index.Keys
    && (forall fd {:trigger index[fd]} | fd in index ::
          index[fd] < |slots| && slots[index[fd]].fd == Encoded(fd, fd in muted))
    && (forall i {:trigger Decoded(slots[i].fd)} | 0 <= i < |slots| ::
          Decoded(slots[i].fd) in index && index[Decoded(slots[i].fd)] == i)
  }

  lemma DenseAdd(slots: seq<PollFd>, index: map<nat, nat>, muted: set<nat>, slot: PollFd)
    requires Dense(slots, index, muted) && slot.fd >= 0 && slot.fd !in index
    ensures Dense(slots + [slot], index[slot.fd := |slots|], muted)
  {
  }

  lemma DenseUpdate(slots: seq<PollFd>, index: map<nat, nat>, muted: set<nat>, fd: nat, slot: PollFd, mute: bool)
    requires Dense(slots, index, muted) && fd in index
    requires slot.fd == Encoded(fd, mute || fd in muted)
    ensures Dense(slots[index[fd] := slot], index, if mute then muted + {fd} else muted)
  {
  }

  /** std::iter_swap of two slots. */
  function Swapped(slots: seq<PollFd>, i: nat, j: nat): (r: seq<PollFd>)
    requires i < |slots| && j < |slots|
    ensures |r| == |slots|
  {
    slots[i := slots[j]][j := slots[i]]
  }

  ghost function Exchanged(index: map<nat, nat>, a: nat, b: nat): map<nat, nat>
    requires a in index && b in index
  {
    index[a := index[b]][b := index[a]]
  }

  /** Every descriptor keeps its slot, and all but the two keep its place. */
  lemma DenseSwap(slots: seq<PollFd>, index: map<nat, nat>, muted: set<nat>, a: nat, b: nat)
    requires Dense(slots, index, muted) && a in index && b in index
    ensures var slots', index' := Swapped(slots, index[a], index[b]), Exchanged(index, a, b);
            && Dense(slots', index', muted) && index'.Keys == index.Keys
            && (forall fd {:trigger index'[fd]} | fd in index :: slots'[index'[fd]] == slots[index[fd]])
            && (forall fd {:trigger index'[fd]} | fd in index && fd != a && fd != b :: index'[fd] == index[fd])
  {
    OthersElsewhere(slots, index, muted, a);
    OthersElsewhere(slots, index, muted, b);
  }

  lemma DensePop(slots: seq<PollFd>, index: map<nat, nat>, muted: set<nat>, fd: nat)
    requires Dense(slots, index, muted) && fd in index && index[fd] == |slots| - 1
    ensures Dense(slots[..|slots| - 1], index - {fd}, muted - {fd})
  {
  }

  lemma LastSlot(slots: seq<PollFd>, index: map<nat, nat>, muted: set<nat>, fd: nat)
    requires Dense(slots, index, muted) && fd in index
    ensures slots != [] && Decoded(slots[|slots| - 1].fd) in index
    ensures index[Decoded(slots[|slots| - 1].fd)] == |slots| - 1
    ensures Decoded(slots[|slots| - 1].fd) == fd <==> index[fd] == |slots| - 1
  {
  }

  // ----- One channel's slot over its life -----

  /** updateChannel on a filed channel: the descriptor is negated for an empty mask, and never restored. */
  function Refreshed(slot: PollFd, fd: nat, events: Mask): PollFd {
    PollFd(if events == NONE_EVENT then -(fd as int) - 1 else slot.fd, events, 0)
  }

  function SlotAfter(fd: nat, masks: seq<Mask>): PollFd
    requires masks != []
  {
    if |masks| == 1 then PollFd(fd, masks[0], 0)
    else Refreshed(SlotAfter(fd, masks[..|masks| - 1]), fd, masks[|masks| - 1])
  }

  /** Poll watches a registered descriptor if and only if it has never been disabled since its
      registration: not if and only if its mask is non-empty. */
  lemma {:induction false} WatchedUntilFirstDisabled(fd: nat, masks: seq<Mask>)
    requires masks != []
    ensures SlotAfter(fd, masks).fd == Encoded(fd, NONE_EVENT in masks[1..])
    ensures SlotAfter(fd, masks).events == masks[|masks| - 1]
  {
    if |masks| > 1 {
      var front := masks[..|masks| - 1];
      WatchedUntilFirstDisabled(fd, front);
      assert masks[1..] == front[1..] + [masks[|masks| - 1]];
    }
  }

  /** A channel that is disabled and enabled again is lost to poll. */
  lemma ReenabledStaysUnwatched(fd: nat)
    ensures var slot := SlotAfter(fd, [READ_EVENT, NONE_EVENT, READ_EVENT]);
            slot.events == READ_EVENT && slot.fd < 0
  {
  }

  class Poller {
    var pollfds: seq<PollFd>
    var channels: map<nat, Channel>
    /** The channels' own indexes, and the descriptors disabled since they were registered. */
    ghost var index: map<nat, nat>
    ghost var muted: set<nat>

    constructor ()
      ensures Valid() && pollfds == [] && channels == map[]
    {
      pollfds, channels, index, muted := [], map[], map[], {};
    }

    /** The filed channels fit these slots and this index, but perhaps for one channel that is just
        being changed. */
    ghost predicate Fits(slots: seq<PollFd>, index: map<nat, nat>, muted: set<nat>, except: Channel?)
      reads this, channels.Values
    {
      && Dense(slots, index, muted) && index.Keys == channels.Keys
      && (forall fd {:trigger channels[fd]} | fd in channels ::
            && channels[fd].fd == fd
            && (channels[fd] != except ==>
                  channels[fd].index == index[fd] && slots[index[fd]].events == channels[fd].events))
    }

    ghost predicate ValidBut(except: Channel)
      reads this, channels.Values
    {
      Fits(pollfds, index, muted, except)
    }

    ghost predicate Valid()
      reads this, channels.Values
    {
      Fits(pollfds, index, muted, null)
    }

    ghost predicate Knows(ch: Channel)
      reads this
    {
      ch.fd in channels && channels[ch.fd] == ch
    }

    /** The source's assertions: a new channel's descriptor is free, an old one is the one filed. */
    method UpdateChannel(ch: Channel)
      requires ValidBut(ch) && (if ch.index < 0 then ch.fd !in channels else Knows(ch) && ch.index == index[ch.fd])
      modifies this, ch`index
      ensures Valid() && Knows(ch) && channels == old(channels)[ch.fd := ch]
      ensures old(ch.index) < 0 ==> pollfds == old(pollfds) + [PollFd(ch.fd, ch.events, 0)] && muted == old(muted)
      ensures old(ch.index) >= 0 ==>
        && ch.index == old(ch.index) < |old(pollfds)|
        && muted == (if ch.events == NONE_EVENT then old(muted) + {ch.fd} else old(muted))
        && pollfds == old(pollfds)[ch.index := PollFd(Encoded(ch.fd, ch.fd in muted), ch.events, 0)]
    {
      if ch.index < 0 {
        Register(ch);
      } else {
        Refresh(ch);
      }
    }

    method Register(ch: Channel)
      requires ValidBut(ch) && ch.fd !in channels
      modifies this, ch`index
      ensures Valid() && Knows(ch) && channels == old(channels)[ch.fd := ch]
      ensures pollfds == old(pollfds) + [PollFd(ch.fd, ch.events, 0)] && muted == old(muted)
    {
      DenseAdd(pollfds, index, muted, PollFd(ch.fd, ch.events, 0));
      ch.index := |pollfds|;
      channels := channels[ch.fd := ch];
      Install(pollfds + [PollFd(ch.fd, ch.events, 0)], index[ch.fd := |pollfds|], muted);
    }

    method Refresh(ch: Channel)
      requires ValidBut(ch) && Knows(ch) && ch.index == index[ch.fd]
      modifies this`pollfds, this`muted
      ensures Valid() && 0 <= ch.index < |old(pollfds)|
      ensures muted == if ch.events == NONE_EVENT then old(muted) + {ch.fd} else old(muted)
      ensures pollfds == old(pollfds)[ch.index := PollFd(Encoded(ch.fd, ch.fd in muted), ch.events, 0)]
      ensures pollfds[ch.index] == Refreshed(old(pollfds[ch.index]), ch.fd, ch.events)
    {
      var slot := pollfds[ch.index].(events := ch.events, revents := 0);
      if ch.IsNoneEvent() {
        slot := slot.(fd := -(ch.fd as int) - 1);
      }
      assert slot == Refreshed(pollfds[ch.index], ch.fd, ch.events);
      DenseUpdate(pollfds, index, muted, ch.fd, slot, ch.IsNoneEvent());
      OthersElsewhere(pollfds, index, muted, ch.fd);
      pollfds := pollfds[ch.index := slot];
      muted := if ch.IsNoneEvent() then muted + {ch.fd} else muted;
    }

    /** Another channel has the last slot: the two change places, and it is told. */
    method SwapWithLast(ch: Channel)
      requires Valid() && Knows(ch) && ch.index != |pollfds| - 1
      modifies this`pollfds, this`index, channels.Values`index
      ensures ValidBut(ch) && Knows(ch) && muted == old(muted) && ch.index == old(ch.index) == old(index[ch.fd])
      ensures pollfds == Swapped(old(pollfds), ch.index, |old(pollfds)| - 1)
      ensures index[ch.fd] == |pollfds| - 1
    {
      LastSlot(pollfds, index, muted, ch.fd);
      ghost var moved := Decoded(pollfds[|pollfds| - 1].fd);
      DenseSwap(pollfds, index, muted, ch.fd, moved);
      var idx := ch.index;
      var channelAtEnd := pollfds[|pollfds| - 1].fd;
      pollfds := Swapped(pollfds, idx, |pollfds| - 1);
      index := Exchanged(index, ch.fd, moved);
      Renumber(ch, channels[Decoded(channelAtEnd)], idx);
    }

    /** set_index on the channel whose slot has just been moved. */
    method Renumber(ch: Channel, last: Channel, idx: nat)
      requires Dense(pollfds, index, muted) && index.Keys == channels.Keys && Knows(last)
      requires last != ch && index[last.fd] == idx && pollfds[idx].events == last.events
      requires forall fd {:trigger channels[fd]} | fd in channels ::
        && channels[fd].fd == fd
        && (channels[fd] != last && channels[fd] != ch ==>
              channels[fd].index == index[fd] && pollfds[index[fd]].events == channels[fd].events)
      modifies last`index
      ensures ValidBut(ch) && last.index == idx
    {
      last.index := idx;
    }

    method PopLast(ch: Channel)
      requires ValidBut(ch) && Knows(ch) && index[ch.fd] == |pollfds| - 1
      modifies this
      ensures Valid() && channels == old(channels) - {ch.fd} && muted == old(muted) - {ch.fd}
      ensures |old(pollfds)| > 0 && pollfds == old(pollfds)[..|old(pollfds)| - 1]
    {
      DensePop(pollfds, index, muted, ch.fd);
      OthersElsewhere(pollfds, index, muted, ch.fd);
      channels := channels - {ch.fd};
      Install(pollfds[..|pollfds| - 1], index - {ch.fd}, muted - {ch.fd});
    }

    /** removeChannel: the last slot takes the freed place. */
    method RemoveChannel(ch: Channel)
      requires Valid() && Knows(ch) && ch.events == NONE_EVENT && ch.fd in muted
      modifies this, channels.Values`index
      ensures Valid() && channels == old(channels) - {ch.fd} && muted == old(muted) - {ch.fd}
      ensures 0 <= old(ch.index) < |old(pollfds)| && pollfds == SwapRemoved(old(pollfds), old(ch.index))
    {
      if ch.index != |pollfds| - 1 {
        SwapWithLast(ch);
      }
      PopLast(ch);
    }

    method Install(slots: seq<PollFd>, ghost index: map<nat, nat>, ghost muted: set<nat>)
      requires Fits(slots, index, muted, null)
      modifies this`pollfds, this`index, this`muted
      ensures Valid() && pollfds == slots && this.muted == muted
    {
      pollfds, this.index, this.muted := slots, index, muted;
    }

    /** `active` are the channels of the first ready slots, and have been told what happened. */
    ghost predicate Reported(active: seq<Channel>, ready: seq<PollFd>)
      reads this, channels.Values
    {
      && |active| <= |ready|
      && forall k | 0 <= k < |active| ::
           Knows(active[k]) && active[k].fd == ready[k].fd && active[k].revents == ready[k].revents
    }

    /** fillActiveChannels stops after `numEvents` slots with events; the kernel reports none for
        a negative descriptor, so every look-up succeeds. */
    method FillActiveChannels(numEvents: nat) returns (active: seq<Channel>)
      requires Valid()
      requires forall slot | slot in pollfds && slot.fd < 0 :: !HasEvents(slot)
      modifies channels.Values`revents
      ensures Valid() && Reported(active, Ready(pollfds))
      ensures |active| == if numEvents < |Ready(pollfds)| then numEvents else |Ready(pollfds)|
    {
      ReadyDistinct(pollfds, index, muted);
      ghost var ready := Ready(pollfds);
      active := [];
      var n, i := numEvents, 0;
      while i < |pollfds| && n > 0
        invariant 0 <= i <= |pollfds| && n >= 0 && n + |active| == numEvents
        invariant |active| == ReadyCount(pollfds, i)
        invariant Valid() && Reported(active, ready)
      {
        ReadyNext(pollfds, i);
        if HasEvents(pollfds[i]) {
          n := n - 1;
          active := Activate(pollfds[i], active, ready);
        }
        i := i + 1;
      }
      assert i == |pollfds| ==> pollfds[..i] == pollfds;
    }

    method Activate(slot: PollFd, active: seq<Channel>, ghost ready: seq<PollFd>) returns (longer: seq<Channel>)
      requires Valid() && Reported(active, ready) && slot in pollfds && slot.fd >= 0
      requires |active| < |ready| && ready[|active|] == slot
      requires AllDistinct(ready)
      modifies channels.Values`revents
      ensures Valid() && |longer| == |active| + 1 && Reported(longer, ready)
    {
      assert Decoded(slot.fd) == slot.fd;
      var ch := channels[slot.fd];
      assert forall k | 0 <= k < |active| :: Decoded(ready[k].fd) != Decoded(ready[|active|].fd);
      assert forall k | 0 <= k < |active| :: active[k] != ch;
      ch.revents := slot.revents;
      longer := active + [ch];
    }
  }

  /** Scanning one more slot meets the next ready one, or none. */
  lemma ReadyNext(slots: seq<PollFd>, i: nat)
    requires i < |slots|
    ensures ReadyCount(slots, i + 1) == ReadyCount(slots, i) + if HasEvents(slots[i]) then 1 else 0
    ensures HasEvents(slots[i]) ==>
      ReadyCount(slots, i) < |Ready(slots)| && Ready(slots)[ReadyCount(slots, i)] == slots[i]
  {
    ReadyPrefix(slots, i + 1);
    assert slots[..i + 1][..i] == slots[..i];
  }

  /** No descriptor is ready in two slots. */
  lemma {:induction false} ReadyDistinct(slots: seq<PollFd>, index: map<nat, nat>, muted: set<nat>)
    requires Dense(slots, index, muted)
    ensures AllDistinct(Ready(slots))
  {
    assert AllDistinct(slots);
    DistinctReady(slots);
  }

  lemma {:induction false} DistinctReady(slots: seq<PollFd>)
    requires AllDistinct(slots)
    ensures AllDistinct(Ready(slots))
  {
    if slots != [] {
      var front, last := slots[..|slots| - 1], slots[|slots| - 1];
      DistinctReady(front);
      ReadyMembers(front);
      assert forall slot | slot in Ready(front) :: Decoded(slot.fd) != Decoded(last.fd);
    }
  }

  lemma OthersElsewhere(slots: seq<PollFd>, index: map<nat, nat>, muted: set<nat>, fd: nat)
    requires Dense(slots, index, muted) && fd in index
    ensures forall other | other in index && other != fd :: index[other] != index[fd]
  {
  }
}
