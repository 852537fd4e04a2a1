/** The epoll multiplexer and its agreement with the kernel's interest list (net/EPoller.cc). */
module EPolling {
  import opened Channels

  const NEW := -1
  const ADDED := 1
  const DELETED := 2

  datatype Registration = Registration(mask: Mask, channel: Channel)
  datatype CtlOp = CtlAdd | CtlMod | CtlDel
  datatype Report = Report(channel: Channel, revents: Mask)

  /** The index a channel has after `updateChannel`. */
  function NextIndex(index: int, events: Mask): (i: int)
    ensures i == ADDED || i == DELETED
    ensures i == DELETED <==> index == ADDED && events == NONE_EVENT
  {
    if index == ADDED && events == NONE_EVENT then DELETED else ADDED
  }

  class EPoller {
    var channels: map<nat, Channel>
    /** The kernel's side: what epoll_ctl has registered, and how often it refused. */
    var interest: map<nat, Registration>
    var refused: nat

    constructor ()
      ensures Valid() && channels == map[] && interest == map[]
    {
      channels, interest, refused := map[], map[], 0;
    }

    /** The entry of descriptor `fd` is consistent, its mask aside. */
    ghost predicate Placed(fd: nat)
      requires fd in channels
      reads this, channels[fd]
    {
      var ch := channels[fd];
      && ch.fd == fd
      && (ch.index == ADDED || ch.index == DELETED)
      && (fd in interest <==> ch.index == ADDED)
      && (fd in interest ==> interest[fd].channel == ch)
    }

    ghost predicate MaskAgrees(fd: nat)
      requires fd in channels
      reads this, channels[fd]
    {
      if fd in interest then interest[fd].mask == channels[fd].events
      else channels[fd].events == NONE_EVENT
    }

    /** The map, the channels' indexes and the kernel agree; and the kernel has never refused a call. */
    ghost predicate Valid()
      reads this, channels.Values
    {
      && refused == 0 && interest.Keys <= channels.Keys
      && (forall fd | fd in channels :: Placed(fd))
      && (forall fd | fd in channels :: MaskAgrees(fd))
    }

    /** Valid but for the mask of one channel, which its owner has just changed. */
    ghost predicate ValidBut(ch: Channel)
      reads this, channels.Values
    {
      && refused == 0 && interest.Keys <= channels.Keys
      && (forall fd | fd in channels :: Placed(fd))
      && (forall fd | fd in channels && fd != ch.fd :: MaskAgrees(fd))
    }

    ghost predicate Knows(ch: Channel)
      reads this
    {
      ch.fd in channels && channels[ch.fd] == ch
    }

    /** The source's assertions on a channel handed to `updateChannel`. */
    ghost predicate Updatable(ch: Channel)
      reads this, ch
    {
      if ch.index == NEW then ch.fd !in channels else Knows(ch)
    }

    ghost predicate Registered(ch: Channel)
      reads this
    {
      ch.fd in interest && interest[ch.fd].channel == ch
    }

    /** No entry but that of `fd` has changed. */
    twostate predicate KeptBut(fd: nat)
      reads this
    {
      && (forall k | k != fd :: k in channels <==> k in old(channels))
      && (forall k | k != fd && k in channels :: channels[k] == old(channels[k]))
      && (forall k | k != fd :: k in interest <==> k in old(interest))
      && (forall k | k != fd && k in interest :: interest[k] == old(interest[k]))
    }

    /** epoll_ctl: the kernel refuses to add a present descriptor and to touch an absent one. */
    method Update(op: CtlOp, ch: Channel)
      modifies this`interest, this`refused
      ensures (op == CtlAdd <==> ch.fd in old(interest)) ==> refused == old(refused) + 1 && interest == old(interest)
      ensures (op == CtlAdd <==> ch.fd !in old(interest)) ==>
        && refused == old(refused)
        && interest == if op == CtlDel then old(interest) - {ch.fd}
                       else old(interest)[ch.fd := Registration(ch.events, ch)]
    {
      if (op == CtlAdd) == (ch.fd in interest) {
        refused := refused + 1;
      } else if op == CtlDel {
        interest := interest - {ch.fd};
      } else {
        interest := interest[ch.fd := Registration(ch.events, ch)];
      }
    }

    /** A new channel, or one the kernel has dropped: EPOLL_CTL_ADD. */
    method Enroll(ch: Channel)
      requires ValidBut(ch) && Updatable(ch) && (ch.index == NEW || ch.index == DELETED)
      modifies this, ch`index
      ensures Valid() && Knows(ch)
      ensures channels == old(channels)[ch.fd := ch] && ch.index == ADDED
      ensures interest == old(interest)[ch.fd := Registration(ch.events, ch)]
    {
      if ch.index == NEW {
        channels := channels[ch.fd := ch];
      }
      ch.index := ADDED;
      Update(CtlAdd, ch);
    }

    /** A channel the kernel has: EPOLL_CTL_DEL without events, else EPOLL_CTL_MOD. */
    method Adjust(ch: Channel)
      requires ValidBut(ch) && Knows(ch) && ch.index == ADDED
      modifies this`interest, this`refused, ch`index
      ensures Valid()
      ensures ch.index == if ch.events == NONE_EVENT then DELETED else ADDED
      ensures interest == if ch.events == NONE_EVENT then old(interest) - {ch.fd}
                          else old(interest)[ch.fd := Registration(ch.events, ch)]
    {
      if ch.IsNoneEvent() {
        Update(CtlDel, ch);
        ch.index := DELETED;
      } else {
        Update(CtlMod, ch);
      }
    }

    method UpdateChannel(ch: Channel)
      requires ValidBut(ch) && Updatable(ch)
      modifies this, ch`index
      ensures Valid() && Knows(ch)
      ensures channels == old(channels)[ch.fd := ch]
      ensures ch.index == NextIndex(old(ch.index), ch.events)
      ensures interest == if ch.index == ADDED then old(interest)[ch.fd := Registration(ch.events, ch)]
                          else old(interest) - {ch.fd}
    {
      if ch.index == NEW || ch.index == DELETED {
        Enroll(ch);
      } else {
        Adjust(ch);
      }
    }

    method RemoveChannel(ch: Channel)
      requires Valid() && Knows(ch) && ch.events == NONE_EVENT
      modifies this, ch`index
      ensures Valid() && ch.index == NEW && KeptBut(ch.fd)
      ensures channels == old(channels) - {ch.fd} && interest == old(interest) - {ch.fd}
    {
      var index := ch.index;
      channels := channels - {ch.fd};
      if index == ADDED {
        Update(CtlDel, ch);
      }
      ch.index := NEW;
    }

    /** Channel's own setters: a new mask, then `update`. */
    method SetEvents(ch: Channel, events: Mask)
      requires Valid() && Updatable(ch)
      modifies this, ch`events, ch`index
      ensures Valid() && Knows(ch) && KeptBut(ch.fd)
      ensures ch.events == events && ch.index == NextIndex(old(ch.index), events)
    {
      ch.events := events;
      UpdateChannel(ch);
    }

    method EnableReading(ch: Channel)
      requires Valid() && Updatable(ch)
      modifies this, ch`events, ch`index
      ensures Valid() && Knows(ch) && Registered(ch) && KeptBut(ch.fd)
      ensures ch.events == old(ch.events) | READ_EVENT
      ensures ch.IsReading() && ch.IsWriting() == old(ch.IsWriting())
      ensures Reports(interest[ch.fd].mask, POLLIN, OnRead) && Reports(interest[ch.fd].mask, POLLPRI, OnRead)
    {
      ghost var was := ch.events;
      SetEvents(ch, ch.events | READ_EVENT);
      assert Placed(ch.fd);
      MaskBits(was);
      ReadingReports(was);
    }

    method EnableWriting(ch: Channel)
      requires Valid() && Updatable(ch)
      modifies this, ch`events, ch`index
      ensures Valid() && Knows(ch) && Registered(ch) && KeptBut(ch.fd)
      ensures ch.events == old(ch.events) | WRITE_EVENT
      ensures ch.IsWriting() && ch.IsReading() == old(ch.IsReading())
      ensures Reports(interest[ch.fd].mask, POLLOUT, OnWrite)
    {
      ghost var was := ch.events;
      SetEvents(ch, ch.events | WRITE_EVENT);
      assert Placed(ch.fd);
      MaskBits(was);
      WritingReports(was);
    }

    method DisableWriting(ch: Channel)
      requires Valid() && Updatable(ch)
      modifies this, ch`events, ch`index
      ensures Valid() && Knows(ch) && KeptBut(ch.fd)
      ensures ch.events == old(ch.events) & !WRITE_EVENT
      ensures !ch.IsWriting() && ch.IsReading() == old(ch.IsReading())
      ensures ch.fd in interest ==> !Reports(interest[ch.fd].mask, POLLOUT, OnWrite)
    {
      ghost var was := ch.events;
      SetEvents(ch, ch.events & !WRITE_EVENT);
      assert MaskAgrees(ch.fd);
      MaskBits(was);
      NotWritingReports(was);
    }

    /** Note the index: disabling a channel that is not registered registers it, with an empty mask. */
    method DisableAll(ch: Channel)
      requires Valid() && Updatable(ch)
      modifies this, ch`events, ch`index
      ensures Valid() && Knows(ch) && KeptBut(ch.fd)
      ensures ch.events == NONE_EVENT && ch.index == NextIndex(old(ch.index), NONE_EVENT)
      ensures Registered(ch) <==> old(ch.index) != ADDED
      ensures ch.fd in interest ==>
        !Reports(interest[ch.fd].mask, POLLIN, OnRead) && !Reports(interest[ch.fd].mask, POLLOUT, OnWrite)
    {
      SetEvents(ch, NONE_EVENT);
      assert Placed(ch.fd) && MaskAgrees(ch.fd);
      NothingReports();
    }

    /** disableAll, then removeChannel: the descriptor is gone, whichever way disabling went. */
    method Deregister(ch: Channel)
      requires Valid() && Updatable(ch)
      modifies this, ch`events, ch`index
      ensures Valid() && KeptBut(ch.fd)
      ensures ch.index == NEW && ch.events == NONE_EVENT
      ensures ch.fd !in channels && ch.fd !in interest
    {
      DisableAll(ch);
      RemoveChannel(ch);
    }

    /** fillActiveChannels on what epoll_wait reported: every look-up succeeds. */
    method FillActiveChannels(reported: seq<Report>) returns (active: seq<Channel>)
      requires Valid()
      requires forall i | 0 <= i < |reported| :: Registered(reported[i].channel)
      requires forall i, j | 0 <= i < j < |reported| :: reported[i].channel.fd != reported[j].channel.fd
      modifies set r | r in reported :: r.channel`revents
      ensures Valid()
      ensures |active| == |reported|
      ensures forall i | 0 <= i < |reported| ::
        Knows(active[i]) && active[i] == reported[i].channel && active[i].revents == reported[i].revents
    {
      active := [];
      var i := 0;
      while i < |reported|
        invariant 0 <= i <= |reported| && |active| == i
        invariant Valid()
        invariant forall k | 0 <= k < i ::
          Knows(active[k]) && active[k] == reported[k].channel && active[k].revents == reported[k].revents
      {
        var ch := reported[i].channel;
        assert Placed(ch.fd);
        assert ch.fd in channels && channels[ch.fd] == ch;
        ch.revents := reported[i].revents;
        active := active + [ch];
        i := i + 1;
      }
    }
  }

  // ----- Repeated disabling -----

  function AfterDisables(index: int, n: nat): int {
    if n == 0 then index else NextIndex(AfterDisables(index, n - 1), NONE_EVENT)
  }

  /** handleClose and connectDestroyed both disable: every second disableAll re-adds the descriptor. */
  lemma {:induction false} DisableAllAlternates(index: int, n: nat)
    requires index == NEW || index == ADDED || index == DELETED
    requires n > 0
    ensures AfterDisables(index, n) == ADDED <==> (if index == ADDED then n % 2 == 0 else n % 2 == 1)
  {
    if n > 1 {
      DisableAllAlternates(index, n - 1);
    }
  }
}
