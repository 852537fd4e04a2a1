/** A descriptor's event mask and the dispatch of its events (net/Channel.h, net/Channel.cc). */
module Channels {

  type Mask = bv16

  const POLLIN: Mask := 0x0001
  const POLLPRI: Mask := 0x0002
  const POLLOUT: Mask := 0x0004
  const POLLERR: Mask := 0x0008
  const POLLHUP: Mask := 0x0010
  const POLLNVAL: Mask := 0x0020
  const POLLRDHUP: Mask := 0x2000

  const NONE_EVENT: Mask := 0
  const READ_EVENT: Mask := POLLIN | POLLPRI
  const WRITE_EVENT: Mask := POLLOUT

  class Channel {
    const fd: nat
    var events: Mask
    var revents: Mask
    var index: int

    constructor (fd: nat)
      ensures this.fd == fd && events == NONE_EVENT && revents == 0 && index == -1
    {
      this.fd := fd;
      events, revents, index := NONE_EVENT, 0, -1;
    }

    predicate IsNoneEvent()
      reads this
    {
      events == NONE_EVENT
    }

    predicate IsWriting()
      reads this
    {
      events & WRITE_EVENT != 0
    }

    predicate IsReading()
      reads this
    {
      events & READ_EVENT != 0
    }
  }

  datatype Callback = OnClose | OnError | OnRead | OnWrite

  function Rank(c: Callback): nat {
    match c
    case OnClose => 0
    case OnError => 1
    case OnRead => 2
    case OnWrite => 3
  }

  /** handleEvent: which callbacks the returned events fire, each at most once, errors before data
      and the write callback last. */
  function Dispatch(revents: Mask): (cs: seq<Callback>)
    ensures OnClose in cs <==> revents & POLLHUP != 0 && revents & POLLIN == 0
    ensures OnError in cs <==> revents & POLLERR != 0 || revents & POLLNVAL != 0
    ensures OnRead in cs <==> revents & POLLIN != 0 || revents & POLLPRI != 0 || revents & POLLRDHUP != 0
    ensures OnWrite in cs <==> revents & POLLOUT != 0
    ensures forall i, j :: 0 <= i < j < |cs| ==> Rank(cs[i]) < Rank(cs[j])
  {
    (if revents & POLLHUP != 0 && revents & POLLIN == 0 then [OnClose] else [])
    + (if revents & (POLLERR | POLLNVAL) != 0 then [OnError] else [])
    + (if revents & (POLLIN | POLLPRI | POLLRDHUP) != 0 then [OnRead] else [])
    + (if revents & POLLOUT != 0 then [OnWrite] else [])
  }

  /** The event is registered, and its report fires the callback. */
  predicate Reports(mask: Mask, event: Mask, c: Callback) {
    c in Dispatch(event & mask)
  }

  /** Each flag, all of them different, fires one callback; hanging up with data left to read is not closing yet. */
  lemma OneFlagOneCallback()
    ensures Dispatch(POLLIN) == Dispatch(POLLPRI) == Dispatch(POLLRDHUP) == [OnRead]
    ensures Dispatch(POLLOUT) == [OnWrite]
    ensures Dispatch(POLLERR) == Dispatch(POLLNVAL) == [OnError]
    ensures POLLIN & POLLPRI == POLLIN & POLLRDHUP == POLLPRI & POLLRDHUP == POLLERR & POLLNVAL == 0
    ensures Dispatch(POLLHUP) == [OnClose] && Dispatch(POLLHUP | POLLIN) == [OnRead]
  {
  }

  // What a mask with reading or writing switched on or off gets reported.

  lemma ReadingReports(m: Mask)
    ensures Reports(m | READ_EVENT, POLLIN, OnRead) && Reports(m | READ_EVENT, POLLPRI, OnRead)
  {
    assert POLLIN & (m | READ_EVENT) == POLLIN && POLLPRI & (m | READ_EVENT) == POLLPRI;
  }

  lemma WritingReports(m: Mask)
    ensures Reports(m | WRITE_EVENT, POLLOUT, OnWrite)
  {
    assert POLLOUT & (m | WRITE_EVENT) == POLLOUT;
  }

  lemma NotWritingReports(m: Mask)
    ensures !Reports(m & !WRITE_EVENT, POLLOUT, OnWrite)
  {
    assert POLLOUT & (m & !WRITE_EVENT) == 0;
  }

  lemma NothingReports()
    ensures !Reports(NONE_EVENT, POLLIN, OnRead) && !Reports(NONE_EVENT, POLLOUT, OnWrite)
  {
  }

  lemma MaskBits(m: Mask)
    ensures (m | WRITE_EVENT) & WRITE_EVENT != 0
    ensures (m | READ_EVENT) & READ_EVENT != 0
    ensures (m & !WRITE_EVENT) & WRITE_EVENT == 0
    ensures (m & !WRITE_EVENT) & READ_EVENT == m & READ_EVENT
    ensures (m | WRITE_EVENT) & READ_EVENT == m & READ_EVENT
    ensures (m | READ_EVENT) & WRITE_EVENT == m & WRITE_EVENT
  {
  }
}
