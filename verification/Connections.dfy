/** A TCP connection's output path, half-close and input path (net/TcpConnection.cc).

    `Conn` is what a run of a connection looks like from outside: the messages handed to it, the
    calls it made on its socket, what it still holds. `TcpConnection` is the object, on real buffers
    and a real channel; every method moves `View()` as the step function of the same name says. */
module Connections {
  import opened Common
  import opened Buffers
  import opened Channels
  import opened EPolling

  datatype ConnState = Connecting | Connected | Disconnecting | Disconnected

  /** How the kernel answers a write: it accepts a prefix of what it is offered, or fails. */
  datatype WriteResult = Accepts(n: nat) | Fails

  /** How the kernel answers readFd, and how many bytes the message callback then takes. */
  datatype ReadResult = Arrives(bytes: seq<byte>, take: nat) | EndOfFile | ReadFails

  /** The calls made on the socket's write side. A failed write is a write of nothing. */
  datatype SocketCall = Wrote(bytes: seq<byte>) | ShutWr

  datatype Conn = Conn(
    state: ConnState,
    reading: bool,
    writing: bool,
    pending: seq<byte>,
    sent: seq<byte>,
    calls: seq<SocketCall>,
    notify: bool,
    completions: nat,
    input: seq<byte>,
    consumed: seq<byte>,
    received: seq<byte>,
    closed: bool)

  function Taken(r: WriteResult, offered: nat): (n: nat)
    ensures n <= offered
  {
    match r
    case Accepts(n) => Min(n, offered)
    case Fails => 0
  }

  /** Every byte the kernel accepted, in order. */
  ghost function Wire(calls: seq<SocketCall>): seq<byte> {
    if calls == [] then []
    else Wire(calls[..|calls| - 1]) +
         match calls[|calls| - 1] case Wrote(bytes) => bytes case ShutWr => []
  }

  lemma WireSnoc(calls: seq<SocketCall>, call: SocketCall)
    ensures Wire(calls + [call]) == Wire(calls) + (if call.Wrote? then call.bytes else [])
  {
  }

  // ----- Steps -----

  ghost function Established(c: Conn): Conn {
    c.(state := Connected, reading := true)
  }

  ghost function SentInLoop(c: Conn, msg: seq<byte>, r: WriteResult): Conn {
    var direct := !c.writing && c.pending == [];
    var n := if direct then Taken(r, |msg|) else 0;
    c.(sent := c.sent + msg,
       calls := if direct then c.calls + [Wrote(msg[..n])] else c.calls,
       completions := c.completions + if direct && r.Accepts? && n == |msg| && c.notify then 1 else 0,
       pending := c.pending + msg[n..],
       writing := c.writing || n < |msg|)
  }

  ghost function Sent(c: Conn, msg: seq<byte>, r: WriteResult): Conn {
    if c.state == Connected then SentInLoop(c, msg, r) else c
  }

  ghost function HalfClosed(c: Conn): Conn {
    if c.writing then c else c.(calls := c.calls + [ShutWr])
  }

  ghost function ShutDown(c: Conn): Conn {
    if c.state == Connected then HalfClosed(c.(state := Disconnecting)) else c
  }

  /** The kernel takes the first `n` bytes of the backlog. */
  ghost function Offered(c: Conn, n: nat): Conn
    requires n <= |c.pending|
  {
    c.(calls := c.calls + [Wrote(c.pending[..n])], pending := c.pending[n..])
  }

  /** The backlog is gone: stop watching, report, and half-close if that was deferred. */
  ghost function Emptied(c: Conn): Conn {
    var c' := c.(writing := false, completions := c.completions + if c.notify then 1 else 0);
    if c.state == Disconnecting then HalfClosed(c') else c'
  }

  ghost function Flushed(c: Conn, r: WriteResult): Conn {
    if !c.writing then c else
    var n := Taken(r, |c.pending|);
    var c' := Offered(c, n);
    if n == 0 || c'.pending != [] then c' else Emptied(c')
  }

  ghost function Closed(c: Conn): Conn {
    c.(reading := false, writing := false, closed := true)
  }

  ghost function Destroyed(c: Conn): Conn {
    Closed(c).(state := Disconnected)
  }

  ghost function WasRead(c: Conn, r: ReadResult): Conn {
    match r
    case Arrives(bytes, take) =>
      if bytes == [] then Closed(c) else
      var all := c.input + bytes;
      var k := Min(take, |all|);
      c.(received := c.received + bytes, consumed := c.consumed + all[..k], input := all[k..])
    case EndOfFile => Closed(c)
    case ReadFails => c
  }

  // ----- Runs -----

  /** `QueuedSend` is a sendInLoop that another thread has queued while the connection was up: the
      loop gets to it whatever has become of the connection. */
  datatype ConnOp =
    | Establish
    | Send(msg: seq<byte>, w: WriteResult)
    | QueuedSend(msg: seq<byte>, w: WriteResult)
    | Shutdown
    | Writable(w: WriteResult)
    | Readable(r: ReadResult)
    | Close
    | Destroy

  ghost predicate Alive(c: Conn) {
    c.state == Connected || c.state == Disconnecting
  }

  /** The source's assertions on the state each operation starts from. */
  ghost predicate Legal(c: Conn, op: ConnOp) {
    match op
    case Establish => c.state == Connecting
    case QueuedSend(_, _) => c.state != Connecting
    case Readable(_) => Alive(c)
    case Close => Alive(c)
    case Destroy => Alive(c)
    case _ => true
  }

  ghost function Step(c: Conn, op: ConnOp): Conn {
    match op
    case Establish => Established(c)
    case Send(msg, w) => Sent(c, msg, w)
    case QueuedSend(msg, w) => SentInLoop(c, msg, w)
    case Shutdown => ShutDown(c)
    case Writable(w) => Flushed(c, w)
    case Readable(r) => WasRead(c, r)
    case Close => Closed(c)
    case Destroy => Destroyed(c)
  }

  ghost predicate LegalRun(c: Conn, ops: seq<ConnOp>)
    decreases |ops|
  {
    ops == [] || (Legal(c, ops[0]) && LegalRun(Step(c, ops[0]), ops[1..]))
  }

  ghost function Run(c: Conn, ops: seq<ConnOp>): Conn
    decreases |ops|
  {
    if ops == [] then c else Run(Step(c, ops[0]), ops[1..])
  }

  ghost function NewConn(notify: bool): Conn {
    Conn(Connecting, false, false, [], [], [], notify, 0, [], [], [], false)
  }

  // ----- What every step keeps -----

  ghost predicate Conserves(c: Conn) {
    && Wire(c.calls) + c.pending == c.sent
    && c.consumed + c.input == c.received
  }

  /** Writability is watched for only if there is something to write. */
  ghost predicate Busy(c: Conn) {
    c.writing ==> c.pending != []
  }

  ghost predicate ShutIsLast(calls: seq<SocketCall>) {
    forall i | 0 <= i < |calls| - 1 :: calls[i] != ShutWr
  }

  /** SHUT_WR goes with disconnecting; and until the connection is closed, a backlog is being drained
      and a disconnecting connection without one has shut its write side. */
  ghost predicate WriteSide(c: Conn) {
    && Busy(c)
    && (ShutWr in c.calls ==> c.state == Disconnecting || c.state == Disconnected)
    && (c.state == Connecting ==> c.calls == [] && c.pending == [] && !c.closed)
    && (c.state == Disconnected ==> c.closed)
    && (!c.closed ==>
          && (c.pending != [] ==> c.writing)
          && (c.state == Disconnecting && c.pending == [] ==> ShutWr in c.calls))
  }

  ghost predicate Inv(c: Conn) {
    Conserves(c) && WriteSide(c)
  }

  lemma WrittenInPart(calls: seq<SocketCall>, msg: seq<byte>, n: nat)
    requires n <= |msg|
    ensures Wire(calls + [Wrote(msg[..n])]) + msg[n..] == Wire(calls) + msg
  {
    WireSnoc(calls, Wrote(msg[..n]));
    assert msg[..n] + msg[n..] == msg;
  }

  lemma {:induction false} SentConserves(c: Conn, msg: seq<byte>, w: WriteResult)
    requires Conserves(c)
    ensures Conserves(SentInLoop(c, msg, w))
  {
    if !c.writing && c.pending == [] {
      var n := Taken(w, |msg|);
      WrittenInPart(c.calls, msg, n);
      assert [] + msg[n..] == msg[n..];
      assert Wire(c.calls) + [] == Wire(c.calls);
    } else {
      assert msg[0..] == msg;
      assert Wire(c.calls) + (c.pending + msg) == Wire(c.calls) + c.pending + msg;
    }
  }

  lemma {:induction false} HalfClosedConserves(c: Conn)
    requires Conserves(c)
    ensures Conserves(HalfClosed(c))
  {
  }

  lemma {:induction false} OfferedConserves(c: Conn, n: nat)
    requires Conserves(c) && n <= |c.pending|
    ensures Conserves(Offered(c, n))
  {
  }

  lemma {:induction false} EmptiedConserves(c: Conn)
    requires Conserves(c)
    ensures Conserves(Emptied(c))
  {
  }

  lemma {:induction false} FlushedConserves(c: Conn, w: WriteResult)
    requires Conserves(c)
    ensures Conserves(Flushed(c, w))
  {
    if c.writing {
      var n := Taken(w, |c.pending|);
      OfferedConserves(c, n);
      if n > 0 && Offered(c, n).pending == [] {
        EmptiedConserves(Offered(c, n));
      }
    }
  }

  lemma {:induction false} WasReadConserves(c: Conn, r: ReadResult)
    requires Conserves(c)
    ensures Conserves(WasRead(c, r))
  {
  }

  lemma {:induction false} StepConserves(c: Conn, op: ConnOp)
    requires Conserves(c)
    ensures Conserves(Step(c, op))
  {
    match op
    case Send(msg, w) => SentConserves(c, msg, w);
    case QueuedSend(msg, w) => SentConserves(c, msg, w);
    case Shutdown => HalfClosedConserves(c.(state := Disconnecting));
    case Writable(w) => FlushedConserves(c, w);
    case Readable(r) => WasReadConserves(c, r);
    case _ =>
  }

  lemma {:induction false} SentKeepsWriteSide(c: Conn, msg: seq<byte>, w: WriteResult)
    requires WriteSide(c) && c.state != Connecting
    ensures WriteSide(SentInLoop(c, msg, w))
  {
    assert ShutWr in SentInLoop(c, msg, w).calls <==> ShutWr in c.calls;
  }

  lemma {:induction false} FlushedKeepsWriteSide(c: Conn, w: WriteResult)
    requires WriteSide(c)
    ensures WriteSide(Flushed(c, w))
  {
  }

  lemma {:induction false} StepKeepsWriteSide(c: Conn, op: ConnOp)
    requires WriteSide(c) && Legal(c, op)
    ensures WriteSide(Step(c, op))
  {
    match op
    case Send(msg, w) => if c.state == Connected { SentKeepsWriteSide(c, msg, w); }
    case QueuedSend(msg, w) => SentKeepsWriteSide(c, msg, w);
    case Writable(w) => FlushedKeepsWriteSide(c, w);
    case Shutdown => assert (c.calls + [ShutWr])[|c.calls|] == ShutWr;
    case _ =>
  }

  lemma {:induction false} RunKeepsInv(c: Conn, ops: seq<ConnOp>)
    requires Inv(c) && LegalRun(c, ops)
    ensures Inv(Run(c, ops))
    decreases |ops|
  {
    if ops != [] {
      StepConserves(c, ops[0]);
      StepKeepsWriteSide(c, ops[0]);
      RunKeepsInv(Step(c, ops[0]), ops[1..]);
    }
  }

  // ----- Writing after SHUT_WR -----

  /** The operation calls ::write although the write side has been shut. */
  ghost predicate WritesLate(c: Conn, op: ConnOp) {
    match op
    case QueuedSend(_, _) => ShutWr in c.calls && !c.writing && c.pending == []
    case Writable(_) => ShutWr in c.calls && c.writing
    case _ => false
  }

  ghost predicate NeverLate(c: Conn, ops: seq<ConnOp>)
    decreases |ops|
  {
    ops == [] || (!WritesLate(c, ops[0]) && NeverLate(Step(c, ops[0]), ops[1..]))
  }

  /** No queued message is reached with the connection disconnecting and nothing left to write. */
  ghost predicate InTime(c: Conn, ops: seq<ConnOp>)
    decreases |ops|
  {
    ops == [] ||
    (!(ops[0].QueuedSend? && c.state == Disconnecting && c.pending == []) && InTime(Step(c, ops[0]), ops[1..]))
  }

  /** Every queued message is reached before SHUT_WR. */
  ghost predicate BeforeShut(c: Conn, ops: seq<ConnOp>)
    decreases |ops|
  {
    ops == [] ||
    (!(ops[0].QueuedSend? && ShutWr in c.calls) && BeforeShut(Step(c, ops[0]), ops[1..]))
  }

  ghost predicate ShutIsIdle(c: Conn) {
    ShutWr in c.calls ==> !c.writing
  }

  lemma {:induction false} StepShutIsLast(c: Conn, op: ConnOp)
    requires WriteSide(c) && ShutIsLast(c.calls) && Legal(c, op)
    ensures ShutIsLast(Step(c, op).calls) <==> !WritesLate(c, op)
  {
    if ShutWr in c.calls {
      var i :| 0 <= i < |c.calls| && c.calls[i] == ShutWr;
      if WritesLate(c, op) {
        assert Step(c, op).calls[i] == ShutWr;
      }
    }
  }

  lemma {:induction false} StepExtendsCalls(c: Conn, op: ConnOp)
    ensures c.calls <= Step(c, op).calls && (c.closed ==> Step(c, op).closed)
  {
  }

  lemma {:induction false} RunExtendsCalls(c: Conn, ops: seq<ConnOp>)
    ensures c.calls <= Run(c, ops).calls && (c.closed ==> Run(c, ops).closed)
    decreases |ops|
  {
    if ops != [] {
      StepExtendsCalls(c, ops[0]);
      RunExtendsCalls(Step(c, ops[0]), ops[1..]);
    }
  }

  lemma {:induction false} RunShutIsLast(c: Conn, ops: seq<ConnOp>)
    requires WriteSide(c) && ShutIsLast(c.calls) && LegalRun(c, ops)
    ensures ShutIsLast(Run(c, ops).calls) <==> NeverLate(c, ops)
    decreases |ops|
  {
    if ops != [] {
      var d := Step(c, ops[0]);
      StepKeepsWriteSide(c, ops[0]);
      StepShutIsLast(c, ops[0]);
      if WritesLate(c, ops[0]) {
        RunExtendsCalls(d, ops[1..]);
        var i :| 0 <= i < |d.calls| - 1 && d.calls[i] == ShutWr;
        assert Run(c, ops).calls[i] == ShutWr;
      } else {
        RunShutIsLast(d, ops[1..]);
      }
    }
  }

  lemma {:induction false} StepKeepsIdle(c: Conn, op: ConnOp)
    requires WriteSide(c) && ShutIsIdle(c) && Legal(c, op)
    requires op.QueuedSend? ==> ShutWr !in c.calls
    ensures ShutIsIdle(Step(c, op))
  {
  }

  /** Before any close, being disconnecting with nothing left to write is to have shut the write side. */
  lemma {:induction false} InTimeIsNeverLate(c: Conn, ops: seq<ConnOp>)
    requires WriteSide(c) && ShutIsIdle(c) && LegalRun(c, ops) && !Run(c, ops).closed
    ensures InTime(c, ops) <==> NeverLate(c, ops)
    ensures InTime(c, ops) ==> ShutIsIdle(Run(c, ops))
    decreases |ops|
  {
    if ops != [] {
      RunExtendsCalls(c, ops);
      assert ShutWr in c.calls <==> c.state == Disconnecting && c.pending == [];
      if !(ops[0].QueuedSend? && ShutWr in c.calls) {
        StepKeepsWriteSide(c, ops[0]);
        StepKeepsIdle(c, ops[0]);
        InTimeIsNeverLate(Step(c, ops[0]), ops[1..]);
      }
    }
  }

  lemma {:induction false} BeforeShutIsNeverLate(c: Conn, ops: seq<ConnOp>)
    requires WriteSide(c) && ShutIsIdle(c) && LegalRun(c, ops) && BeforeShut(c, ops)
    ensures NeverLate(c, ops)
    decreases |ops|
  {
    if ops != [] {
      StepKeepsWriteSide(c, ops[0]);
      StepKeepsIdle(c, ops[0]);
      BeforeShutIsNeverLate(Step(c, ops[0]), ops[1..]);
    }
  }

  lemma {:induction false} LocalIsInTime(c: Conn, ops: seq<ConnOp>)
    requires forall op | op in ops :: !op.QueuedSend?
    ensures BeforeShut(c, ops) && InTime(c, ops)
    decreases |ops|
  {
    if ops != [] {
      assert ops[0] in ops;
      LocalIsInTime(Step(c, ops[0]), ops[1..]);
    }
  }

  // ----- Results -----

  /** Output and input conservation over every run, whatever the kernel accepts and whichever thread
      sends: nothing is lost, repeated or reordered on either side. */
  lemma BytesConserved(notify: bool, ops: seq<ConnOp>)
    requires LegalRun(NewConn(notify), ops)
    ensures var c := Run(NewConn(notify), ops);
            && Wire(c.calls) + c.pending == c.sent
            && c.consumed + c.input == c.received
  {
    RunKeepsInv(NewConn(notify), ops);
  }

  /** SHUT_WR is the last call on the write side (no second one, no write, not even a failing one) of
      exactly those runs in which no operation finds the write side shut and yet something to write:
      neither a queued message without a backlog, nor a writable event. */
  lemma NothingFollowsShutWr(notify: bool, ops: seq<ConnOp>)
    requires LegalRun(NewConn(notify), ops)
    ensures ShutIsLast(Run(NewConn(notify), ops).calls) <==> NeverLate(NewConn(notify), ops)
  {
    RunShutIsLast(NewConn(notify), ops);
  }

  /** In particular of every run, closed or not, that reaches its queued messages before SHUT_WR; and
      so of every run without any. */
  lemma BeforeShutSuffices(notify: bool, ops: seq<ConnOp>)
    requires LegalRun(NewConn(notify), ops)
    requires BeforeShut(NewConn(notify), ops) || forall op | op in ops :: !op.QueuedSend?
    ensures ShutIsLast(Run(NewConn(notify), ops).calls)
  {
    if !BeforeShut(NewConn(notify), ops) {
      LocalIsInTime(NewConn(notify), ops);
    }
    BeforeShutIsNeverLate(NewConn(notify), ops);
    RunShutIsLast(NewConn(notify), ops);
  }

  /** As long as the connection has not been closed, something follows SHUT_WR exactly if one of the
      queued messages is reached when it is disconnecting and has nothing left to write. */
  lemma QueuedSendFollowsShutWr(notify: bool, ops: seq<ConnOp>)
    requires LegalRun(NewConn(notify), ops) && !Run(NewConn(notify), ops).closed
    ensures ShutIsLast(Run(NewConn(notify), ops).calls) <==> InTime(NewConn(notify), ops)
  {
    InTimeIsNeverLate(NewConn(notify), ops);
    RunShutIsLast(NewConn(notify), ops);
  }

  lemma RunCons(c: Conn, op: ConnOp, ops: seq<ConnOp>)
    requires Legal(c, op) && LegalRun(Step(c, op), ops)
    ensures LegalRun(c, [op] + ops) && Run(c, [op] + ops) == Run(Step(c, op), ops)
    ensures InTime(c, [op] + ops) <==> InTime(c, [op]) && InTime(Step(c, op), ops)
  {
    assert ([op] + ops)[1..] == ops;
  }

  /** Such a run: a message another thread has queued is reached after the shutdown. */
  lemma LateSend(b: byte, w: WriteResult)
    ensures var ops := [Establish, Shutdown, QueuedSend([b], w)];
            LegalRun(NewConn(false), ops) && !ShutIsLast(Run(NewConn(false), ops).calls)
  {
    var c1 := Established(NewConn(false));
    var c2 := ShutDown(c1);
    var late := QueuedSend([b], w);
    RunCons(c2, late, []);
    RunCons(c1, Shutdown, [late]);
    RunCons(NewConn(false), Establish, [Shutdown, late]);
    assert [late] + [] == [late] && [Shutdown] + [late] == [Shutdown, late];
    assert [Establish] + [Shutdown, late] == [Establish, Shutdown, late];
    assert SentInLoop(c2, [b], w).calls[0] == ShutWr;
  }

  /** And one that reaches it after the destruction: once closed, the connection's own state does not
      tell whether the write side is shut. */
  lemma LateSendAfterDestroy(b: byte, w: WriteResult)
    ensures var ops := [Establish, Shutdown, Destroy, QueuedSend([b], w)];
            && LegalRun(NewConn(false), ops) && !ShutIsLast(Run(NewConn(false), ops).calls)
            && InTime(NewConn(false), ops)
  {
    var c1 := Established(NewConn(false));
    var c2 := ShutDown(c1);
    var c3 := Destroyed(c2);
    var late := QueuedSend([b], w);
    RunCons(c3, late, []);
    RunCons(c2, Destroy, [late]);
    RunCons(c1, Shutdown, [Destroy, late]);
    RunCons(NewConn(false), Establish, [Shutdown, Destroy, late]);
    assert [late] + [] == [late] && [Destroy] + [late] == [Destroy, late];
    assert [Shutdown] + [Destroy, late] == [Shutdown, Destroy, late];
    assert [Establish] + [Shutdown, Destroy, late] == [Establish, Shutdown, Destroy, late];
    assert SentInLoop(c3, [b], w).calls[0] == ShutWr;
  }

  /** As long as the connection has not been closed, it listens for writability exactly while it holds
      bytes, and without any left a disconnecting connection has shut its write side. If its queued
      messages are in time, the write side is shut exactly then, and by that time the peer has been
      given every byte ever sent. */
  lemma GracefulHalfClose(notify: bool, ops: seq<ConnOp>)
    requires LegalRun(NewConn(notify), ops)
    requires !Run(NewConn(notify), ops).closed
    ensures var c := Run(NewConn(notify), ops);
            && (c.writing <==> c.pending != [])
            && (c.state == Disconnecting && c.pending == [] ==> ShutWr in c.calls && Wire(c.calls) == c.sent)
            && (InTime(NewConn(notify), ops) && ShutWr in c.calls ==> c.state == Disconnecting && c.pending == [])
  {
    RunKeepsInv(NewConn(notify), ops);
    InTimeIsNeverLate(NewConn(notify), ops);
    AllOut(Run(NewConn(notify), ops));
  }

  /** A shutdown after a close may cut bytes off. It does so exactly when it finds a backlog nobody
      is draining, and that happens on closed connections only. */
  lemma ShutdownCutsExactly(notify: bool, ops: seq<ConnOp>)
    requires LegalRun(NewConn(notify), ops)
    requires Run(NewConn(notify), ops).state == Connected
    ensures var c := Run(NewConn(notify), ops);
            var d := ShutDown(c);
            && (ShutWr in d.calls && Wire(d.calls) != d.sent <==> c.pending != [] && !c.writing)
            && (c.pending != [] && !c.writing ==> c.closed)
            && (ShutWr in d.calls <==> !c.writing)
  {
    var c := Run(NewConn(notify), ops);
    RunKeepsInv(NewConn(notify), ops);
    WireSnoc(c.calls, ShutWr);
    assert ShutWr !in c.calls;
    if !c.writing {
      assert ShutDown(c).calls[|c.calls|] == ShutWr;
      assert |Wire(c.calls)| + |c.pending| == |c.sent|;
      assert c.pending == [] ==> Wire(c.calls) + [] == Wire(c.calls);
    }
  }

  /** Such a run: a message the kernel does not take, the peer's close, then shutdown. */
  lemma ShutdownAfterCloseCuts(b: byte)
    ensures var ops := [Establish, Send([b], Fails), Close, Shutdown];
            && LegalRun(NewConn(false), ops)
            && ShutWr in Run(NewConn(false), ops).calls
            && Wire(Run(NewConn(false), ops).calls) != Run(NewConn(false), ops).sent
  {
    var c0 := NewConn(false);
    var c1 := Established(c0);
    var c2 := Sent(c1, [b], Fails);
    var c3 := Closed(c2);
    var c4 := ShutDown(c3);
    var ops := [Establish, Send([b], Fails), Close, Shutdown];
    assert ops[1..] == [Send([b], Fails), Close, Shutdown];
    assert ops[1..][1..] == [Close, Shutdown];
    assert [Close, Shutdown][1..] == [Shutdown];
    assert LegalRun(c3, [Shutdown]) && Run(c3, [Shutdown]) == c4;
    assert LegalRun(c2, [Close, Shutdown]) && Run(c2, [Close, Shutdown]) == c4;
    assert LegalRun(c1, ops[1..]) && Run(c1, ops[1..]) == c4;
    assert LegalRun(c0, ops) && Run(c0, ops) == c4;
    RunKeepsInv(c0, ops);
    assert c4.calls[|c4.calls| - 1] == ShutWr;
    assert |c4.pending| == 1;
  }

  /** The write-complete callback is queued at most once per call, and only when the kernel has just
      been given everything sent so far. */
  lemma CompletionMeansDelivered(notify: bool, ops: seq<ConnOp>, op: ConnOp)
    requires LegalRun(NewConn(notify), ops) && Legal(Run(NewConn(notify), ops), op)
    ensures var c := Run(NewConn(notify), ops); var d := Step(c, op);
            && c.completions <= d.completions <= c.completions + 1
            && (d.completions > c.completions ==> notify && Wire(d.calls) == d.sent)
  {
    var c := Run(NewConn(notify), ops);
    RunKeepsInv(NewConn(notify), ops);
    RunKeepsNotify(NewConn(notify), ops);
    StepConserves(c, op);
    StepCompletes(c, op);
    AllOut(Step(c, op));
  }

  lemma {:induction false} StepCompletes(c: Conn, op: ConnOp)
    requires Busy(c)
    ensures var d := Step(c, op);
            && c.completions <= d.completions <= c.completions + 1
            && (d.completions > c.completions ==> c.notify && d.pending == [])
  {
  }

  lemma {:induction false} AllOut(c: Conn)
    requires Conserves(c)
    ensures c.pending == [] ==> Wire(c.calls) == c.sent
  {
  }

  lemma {:induction false} RunKeepsNotify(c: Conn, ops: seq<ConnOp>)
    requires LegalRun(c, ops)
    ensures Run(c, ops).notify == c.notify
    decreases |ops|
  {
    if ops != [] {
      RunKeepsNotify(Step(c, ops[0]), ops[1..]);
    }
  }

  /** A backlog and a deferred half-close are never forgotten: once every writable event moves at
      least one byte, as many events as there are bytes empty the backlog, and a disconnecting
      connection has then shut its write side. */
  lemma {:induction false} BacklogDrains(c: Conn, ops: seq<ConnOp>)
    requires Inv(c) && c.writing
    requires forall op | op in ops :: op.Writable? && op.w.Accepts? && op.w.n > 0
    requires |c.pending| <= |ops|
    ensures var d := Run(c, ops);
            && d.pending == [] && Wire(d.calls) == c.sent && d.state == c.state
            && (c.state == Disconnecting ==> ShutWr in d.calls)
    decreases |ops|
  {
    assert ops[0] in ops;
    var d := Step(c, ops[0]);
    StepConserves(c, ops[0]);
    StepKeepsWriteSide(c, ops[0]);
    assert |d.pending| < |c.pending|;
    if d.pending != [] {
      BacklogDrains(d, ops[1..]);
    } else {
      assert Wire(d.calls) + [] == Wire(d.calls);
      if c.state == Disconnecting {
        assert d.calls[|d.calls| - 1] == ShutWr;
      }
      IdleWritable(d, ops[1..]);
    }
  }

  lemma {:induction false} IdleWritable(c: Conn, ops: seq<ConnOp>)
    requires !c.writing && forall op | op in ops :: op.Writable?
    ensures Run(c, ops) == c
    decreases |ops|
  {
    if ops != [] {
      assert ops[0] in ops && Step(c, ops[0]) == c;
      IdleWritable(c, ops[1..]);
    }
  }

  // ----- The connection itself -----

  class TcpConnection {
    const loop: EPoller
    const channel: Channel
    const inputBuffer: Buffer
    const outputBuffer: Buffer
    /** Is a write-complete callback set? */
    const notify: bool
    var state: ConnState
    /** Write-complete callbacks handed to the loop so far. */
    var completions: nat

    /** What has gone through the connection so far. */
    ghost var calls: seq<SocketCall>
    ghost var sent: seq<byte>
    ghost var consumed: seq<byte>
    ghost var received: seq<byte>
    ghost var closed: bool

    ghost predicate Separate()
      reads this, inputBuffer, outputBuffer
    {
      && inputBuffer != outputBuffer && inputBuffer.data != outputBuffer.data
      && inputBuffer.Valid() && outputBuffer.Valid()
    }

    ghost predicate Placed()
      reads this, channel, loop
    {
      match state
      case Connecting => channel.index == NEW && channel.events == NONE_EVENT
      case Disconnected => if channel.index == NEW then channel.events == NONE_EVENT else loop.Knows(channel)
      case _ => loop.Knows(channel)
    }

    ghost function View(): Conn
      requires Separate()
      reads this, channel, inputBuffer, inputBuffer.data, outputBuffer, outputBuffer.data
    {
      Conn(state, channel.IsReading(), channel.IsWriting(), outputBuffer.Contents(), sent, calls,
           notify, completions, inputBuffer.Contents(), consumed, received, closed)
    }

    /** The objects fit together, whatever the connection has been through. */
    ghost predicate Valid()
      reads this, channel, loop, loop.channels.Values, inputBuffer, outputBuffer
    {
      Separate() && loop.Valid() && Placed()
    }

    constructor (loop: EPoller, fd: nat, notify: bool)
      requires loop.Valid()
      ensures Valid() && this.loop == loop && channel.fd == fd && this.notify == notify
      ensures fresh(channel) && fresh(inputBuffer) && fresh(inputBuffer.data)
      ensures fresh(outputBuffer) && fresh(outputBuffer.data)
      ensures View() == NewConn(notify)
    {
      this.loop, this.notify := loop, notify;
      channel := new Channel(fd);
      inputBuffer := new Buffer();
      outputBuffer := new Buffer();
      state, completions, calls, sent, consumed, received, closed := Connecting, 0, [], [], [], [], false;
    }

    method ConnectEstablished()
      requires Valid() && Legal(View(), Establish) && channel.fd !in loop.channels
      modifies this, channel, loop
      ensures Valid() && View() == Established(old(View()))
      ensures loop.KeptBut(channel.fd) && loop.Registered(channel)
      ensures Reports(loop.interest[channel.fd].mask, POLLIN, OnRead)
    {
      state := Connected;
      loop.EnableReading(channel);
    }

    /** ::write on the connected socket. */
    method Write(offered: seq<byte>, r: WriteResult) returns (n: int)
      modifies this`calls
      ensures calls == old(calls) + [Wrote(offered[..Taken(r, |offered|)])]
      ensures n == if r.Accepts? then Taken(r, |offered|) else -1
    {
      n := if r.Accepts? then Min(r.n, |offered|) else -1;
      calls := calls + [Wrote(offered[..Taken(r, |offered|)])];
    }

    /** The unsent rest of a message goes to the output buffer, and the loop is to report writability. */
    method QueueRest(rest: seq<byte>)
      requires Valid() && state != Connecting && loop.Updatable(channel)
      modifies channel`events, channel`index, loop, outputBuffer, outputBuffer.data
      ensures Valid()
      ensures View() == old(View()).(pending := old(View()).pending + rest, writing := true)
      ensures loop.KeptBut(channel.fd)
      ensures outputBuffer.data == old(outputBuffer.data) || fresh(outputBuffer.data)
    {
      outputBuffer.Append(rest);
      if !channel.IsWriting() {
        loop.EnableWriting(channel);
      }
    }

    /** Nothing is queued: offer the message to the kernel at once. */
    method WriteDirectly(msg: seq<byte>, r: WriteResult) returns (nwrote: nat)
      requires Separate()
      modifies this`calls, this`completions
      ensures Separate() && nwrote == Taken(r, |msg|)
      ensures View() == old(View()).(
        calls := old(calls) + [Wrote(msg[..nwrote])],
        completions := old(completions) + if r.Accepts? && nwrote == |msg| && notify then 1 else 0)
    {
      var n := Write(msg, r);
      if n >= 0 {
        nwrote := n;
        if nwrote >= |msg| && notify {
          completions := completions + 1;
        }
      } else {
        nwrote := 0;
      }
    }

    /** The first half of sendInLoop. */
    method TryDirectly(msg: seq<byte>, r: WriteResult) returns (nwrote: nat)
      requires Separate()
      modifies this`sent, this`calls, this`completions
      ensures Separate()
      ensures nwrote == if !channel.IsWriting() && outputBuffer.Contents() == [] then Taken(r, |msg|) else 0
      ensures View() == SentInLoop(old(View()), msg, r).(pending := old(View()).pending, writing := old(View()).writing)
    {
      sent := sent + msg;
      nwrote := 0;
      if !channel.IsWriting() && outputBuffer.ReadableBytes() == 0 {
        nwrote := WriteDirectly(msg, r);
      }
    }

    /** A message may find the connection disconnected. Its descriptor is open until it is destroyed, so
        no other channel has that. */
    method SendInLoop(msg: seq<byte>, r: WriteResult)
      requires Valid() && state != Connecting && loop.Updatable(channel)
      modifies this, channel`events, channel`index, loop
      modifies outputBuffer, outputBuffer.data
      ensures Valid() && View() == SentInLoop(old(View()), msg, r)
      ensures loop.KeptBut(channel.fd) && (outputBuffer.data == old(outputBuffer.data) || fresh(outputBuffer.data))
    {
      var nwrote := TryDirectly(msg, r);
      if nwrote < |msg| {
        QueueRest(msg[nwrote..]);
      }
    }

    method Send(msg: seq<byte>, r: WriteResult)
      requires Valid()
      modifies this, channel`events, channel`index, loop
      modifies outputBuffer, outputBuffer.data
      ensures Valid() && View() == Sent(old(View()), msg, r)
      ensures loop.KeptBut(channel.fd) && (outputBuffer.data == old(outputBuffer.data) || fresh(outputBuffer.data))
    {
      if state == Connected {
        SendInLoop(msg, r);
      }
    }

    method ShutdownInLoop()
      requires Separate()
      modifies this`calls
      ensures Separate() && View() == HalfClosed(old(View()))
    {
      if !channel.IsWriting() {
        calls := calls + [ShutWr];
      }
    }

    method Shutdown()
      requires Valid()
      modifies this
      ensures Valid() && View() == ShutDown(old(View()))
    {
      if state == Connected {
        state := Disconnecting;
        ShutdownInLoop();
      }
    }

    /** Offer the backlog to the kernel and drop what it takes. */
    method WriteBacklog(r: WriteResult) returns (n: int)
      requires Separate()
      modifies this`calls, outputBuffer`reader
      ensures Separate() && n == if r.Accepts? then Taken(r, |old(outputBuffer.Contents())|) else -1
      ensures View() == Offered(old(View()), Taken(r, |old(outputBuffer.Contents())|))
    {
      n := Write(outputBuffer.data[outputBuffer.reader..outputBuffer.writer], r);
      if n > 0 {
        outputBuffer.Retrieve(n);
      }
    }

    method StopWatching()
      requires Valid() && channel.IsWriting()
      modifies channel`events, channel`index, loop
      ensures Valid() && loop.KeptBut(channel.fd)
      ensures View() == old(View()).(writing := false)
    {
      loop.DisableWriting(channel);
    }

    method ReportCompletion()
      requires Separate()
      modifies this`completions
      ensures Separate()
      ensures View() == old(View()).(completions := old(completions) + if notify then 1 else 0)
    {
      if notify {
        completions := completions + 1;
      }
    }

    method ReportDrained()
      requires Separate() && !channel.IsWriting()
      modifies this`calls, this`completions
      ensures Separate() && View() == Emptied(old(View()))
    {
      ReportCompletion();
      if state == Disconnecting {
        ShutdownInLoop();
      }
    }

    /** The backlog has drained. */
    method FinishWriting()
      requires Valid() && channel.IsWriting()
      modifies this`calls, this`completions, channel`events, channel`index, loop
      ensures Valid() && loop.KeptBut(channel.fd)
      ensures View() == Emptied(old(View()))
    {
      StopWatching();
      ReportDrained();
    }

    method HandleWrite(r: WriteResult)
      requires Valid()
      modifies this, channel`events, channel`index, loop, outputBuffer`reader
      ensures Valid() && View() == Flushed(old(View()), r)
      ensures loop.KeptBut(channel.fd)
    {
      if channel.IsWriting() {
        var n := WriteBacklog(r);
        if n > 0 && outputBuffer.ReadableBytes() == 0 {
          FinishWriting();
        }
      }
    }

    /** handleClose up to its close callback. The state stays as it is; and the channel, if it was
        already disabled, is registered again with an empty mask. */
    method HandleClose()
      requires Valid() && Legal(View(), Close)
      modifies this, channel`events, channel`index, loop
      ensures Valid() && View() == Closed(old(View()))
      ensures loop.KeptBut(channel.fd)
      ensures loop.Registered(channel) <==> old(channel.index) != ADDED
      ensures channel.events == NONE_EVENT
    {
      closed := true;
      loop.DisableAll(channel);
    }

    method ConnectDestroyed()
      requires Valid() && Legal(View(), Destroy)
      modifies this, channel`events, channel`index, loop
      ensures Valid() && View() == Destroyed(old(View()))
      ensures loop.KeptBut(channel.fd) && channel.fd !in loop.channels && channel.fd !in loop.interest
      ensures channel.events == NONE_EVENT
    {
      state := Disconnected;
      closed := true;
      loop.Deregister(channel);
    }

    /** The message callback takes bytes off the front of the input buffer. */
    method Deliver(bytes: seq<byte>, take: nat)
      requires Separate()
      modifies this`received, this`consumed, inputBuffer`reader
      ensures Separate()
      ensures var all := old(inputBuffer.Contents()); var k := Min(take, |all|);
              View() == old(View()).(received := old(received) + bytes, consumed := old(consumed) + all[..k],
                                     input := all[k..])
    {
      received := received + bytes;
      var k := Min(take, inputBuffer.ReadableBytes());
      consumed := consumed + inputBuffer.Contents()[..k];
      inputBuffer.Retrieve(k);
    }

    method ReadInput(r: ReadResult) returns (n: int)
      requires Separate()
      requires r.Arrives? ==> |r.bytes| <= inputBuffer.LayoutOf().Writable() + EXTRA_BUFFER
      modifies inputBuffer, inputBuffer.data
      ensures Separate() && (inputBuffer.data == old(inputBuffer.data) || fresh(inputBuffer.data))
      ensures n == match r case Arrives(bytes, _) => |bytes| case EndOfFile => 0 case ReadFails => -1
      ensures View() == old(View()).(input := old(View()).input + if r.Arrives? then r.bytes else [])
    {
      var arrived := match r
        case Arrives(bytes, _) => Some(bytes)
        case EndOfFile => Some([])
        case ReadFails => None;
      n := inputBuffer.ReadFd(arrived);
    }

    /** readFd, then the message callback if anything has arrived. */
    method Receive(r: ReadResult) returns (n: int)
      requires Separate()
      requires r.Arrives? ==> |r.bytes| <= inputBuffer.LayoutOf().Writable() + EXTRA_BUFFER
      modifies this`received, this`consumed, inputBuffer, inputBuffer.data
      ensures Separate() && (inputBuffer.data == old(inputBuffer.data) || fresh(inputBuffer.data))
      ensures n == match r case Arrives(bytes, _) => |bytes| case EndOfFile => 0 case ReadFails => -1
      ensures View() == if n == 0 then old(View()) else WasRead(old(View()), r)
    {
      n := ReadInput(r);
      if n > 0 {
        Deliver(r.bytes, r.take);
      }
    }

    /** readFd, then the message callback taking bytes, or the close path at end of file. */
    method HandleRead(r: ReadResult)
      requires Valid() && Legal(View(), Readable(r))
      requires r.Arrives? ==> |r.bytes| <= inputBuffer.LayoutOf().Writable() + EXTRA_BUFFER
      modifies this, channel`events, channel`index, loop
      modifies inputBuffer, inputBuffer.data
      ensures Valid() && View() == WasRead(old(View()), r)
      ensures loop.KeptBut(channel.fd) && (inputBuffer.data == old(inputBuffer.data) || fresh(inputBuffer.data))
    {
      var n := Receive(r);
      if n == 0 {
        HandleClose();
      }
    }
  }

  /** One step of a run, made by a real connection. */
  method Perform(conn: TcpConnection, op: ConnOp)
    requires conn.Valid() && Legal(conn.View(), op)
    requires op.Establish? ==> conn.channel.fd !in conn.loop.channels
    requires op.QueuedSend? ==> conn.loop.Updatable(conn.channel)
    requires op.Readable? && op.r.Arrives? ==>
      |op.r.bytes| <= conn.inputBuffer.LayoutOf().Writable() + EXTRA_BUFFER
    modifies conn, conn.channel, conn.loop
    modifies conn.inputBuffer, conn.inputBuffer.data, conn.outputBuffer, conn.outputBuffer.data
    ensures conn.Valid() && conn.View() == Step(old(conn.View()), op)
    ensures conn.loop.KeptBut(conn.channel.fd)
  {
    match op {
      case Establish => conn.ConnectEstablished();
      case Send(msg, w) => conn.Send(msg, w);
      case QueuedSend(msg, w) => conn.SendInLoop(msg, w);
      case Shutdown => conn.Shutdown();
      case Writable(w) => conn.HandleWrite(w);
      case Readable(r) => conn.HandleRead(r);
      case Close => conn.HandleClose();
      case Destroy => conn.ConnectDestroyed();
    }
  }
}
