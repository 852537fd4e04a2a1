/** What a run of a connection comes to, told by its operations alone: which state it is in, what it has
    been given to send, what has arrived, and whether it still reads. */
module ConnectionHistory {
  import opened Common
  import Buffers
  import opened Connections

  // ----- States -----

  function NextState(state: ConnState, op: ConnOp): ConnState {
    match op
    case Establish => if state == Connecting then Connected else state
    case Shutdown => if state == Connected then Disconnecting else state
    case Destroy => Disconnected
    case _ => state
  }

  /** The state a connection is in, from what has been asked of it. */
  function StateAfter(state: ConnState, ops: seq<ConnOp>): ConnState
    decreases |ops|
  {
    if ops == [] then state else StateAfter(NextState(state, ops[0]), ops[1..])
  }

  /** An established connection is destroyed, or else asked to shut down, or else connected. */
  lemma {:induction false} StateTells(c: Conn, ops: seq<ConnOp>)
    requires c.state == Connected || c.state == Disconnecting
    requires LegalRun(c, ops)
    ensures Run(c, ops).state == if Destroy in ops then Disconnected
                                 else if Shutdown in ops || c.state == Disconnecting then Disconnecting
                                 else Connected
    decreases |ops|
  {
    if ops != [] {
      assert ops == [ops[0]] + ops[1..];
      var d := Step(c, ops[0]);
      if ops[0].Destroy? {
        StaysDisconnected(d, ops[1..]);
      } else {
        StateTells(d, ops[1..]);
      }
    }
  }

  lemma {:induction false} StaysDisconnected(c: Conn, ops: seq<ConnOp>)
    requires c.state == Disconnected && LegalRun(c, ops)
    ensures Run(c, ops).state == Disconnected
    decreases |ops|
  {
    if ops != [] {
      StaysDisconnected(Step(c, ops[0]), ops[1..]);
    }
  }

  // ----- What goes in -----

  /** The message an operation gives a connection to deliver: any queued one, and one sent while it is
      connected. */
  function Message(state: ConnState, op: ConnOp): seq<Buffers.byte> {
    match op
    case Send(msg, _) => if state == Connected then msg else []
    case QueuedSend(msg, _) => msg
    case _ => []
  }

  function Given(state: ConnState, ops: seq<ConnOp>): seq<Buffers.byte>
    decreases |ops|
  {
    if ops == [] then [] else Message(state, ops[0]) + Given(NextState(state, ops[0]), ops[1..])
  }

  /** The bytes the kernel hands over. */
  function Bytes(op: ConnOp): seq<Buffers.byte> {
    if op.Readable? && op.r.Arrives? then op.r.bytes else []
  }

  function Arrived(ops: seq<ConnOp>): seq<Buffers.byte>
    decreases |ops|
  {
    if ops == [] then [] else Bytes(ops[0]) + Arrived(ops[1..])
  }

  /** From `c` to `d`, these operations are all that has gone in. */
  ghost predicate TookIn(c: Conn, d: Conn, ops: seq<ConnOp>) {
    && d.sent == c.sent + Given(c.state, ops)
    && d.received == c.received + Arrived(ops)
    && d.state == StateAfter(c.state, ops)
  }

  lemma SentTakesIn(c: Conn, msg: seq<Buffers.byte>, w: WriteResult)
    ensures var d := SentInLoop(c, msg, w);
            d.sent == c.sent + msg && d.received == c.received && d.state == c.state
  {
  }

  lemma FlushedTakesIn(c: Conn, w: WriteResult)
    ensures var d := Flushed(c, w);
            d.sent == c.sent && d.received == c.received && d.state == c.state
  {
  }

  lemma StepTakesIn(c: Conn, op: ConnOp)
    requires Legal(c, op)
    ensures var d := Step(c, op);
            && d.sent == c.sent + Message(c.state, op)
            && d.received == c.received + Bytes(op)
            && d.state == NextState(c.state, op)
  {
    match op
    case Send(msg, w) => SentTakesIn(c, msg, w);
    case QueuedSend(msg, w) => SentTakesIn(c, msg, w);
    case Writable(w) => FlushedTakesIn(c, w);
    case _ =>
  }

  lemma TookInCons(c: Conn, d: Conn, r: Conn, op: ConnOp, ops: seq<ConnOp>)
    requires d.sent == c.sent + Message(c.state, op) && d.received == c.received + Bytes(op)
    requires d.state == NextState(c.state, op) && TookIn(d, r, ops)
    ensures TookIn(c, r, [op] + ops)
  {
    assert ([op] + ops)[1..] == ops;
  }

  lemma {:induction false} RunTakesIn(c: Conn, ops: seq<ConnOp>)
    requires LegalRun(c, ops)
    ensures TookIn(c, Run(c, ops), ops)
    decreases |ops|
  {
    if ops != [] {
      var d := Step(c, ops[0]);
      StepTakesIn(c, ops[0]);
      RunTakesIn(d, ops[1..]);
      TookInCons(c, d, Run(d, ops[1..]), ops[0], ops[1..]);
      assert [ops[0]] + ops[1..] == ops;
    }
  }

  /** Over every run, the bytes the kernel has accepted and those still queued are the messages given
      to the connection, in order; and the bytes its callbacks have taken and those they have left are
      the bytes that have arrived. */
  lemma MessagesConserved(notify: bool, ops: seq<ConnOp>)
    requires LegalRun(NewConn(notify), ops)
    ensures var c := Run(NewConn(notify), ops);
            && Wire(c.calls) + c.pending == Given(Connecting, ops)
            && c.consumed + c.input == Arrived(ops)
  {
    BytesConserved(notify, ops);
    RunTakesIn(NewConn(notify), ops);
  }

  // ----- Nothing waits in vain -----

  /** What an operation may offer to the kernel: a message only with nothing queued before it. */
  function Offer(c: Conn, op: ConnOp): nat {
    match op
    case Send(msg, _) => if c.state == Connected && !c.writing && c.pending == [] then |msg| else 0
    case QueuedSend(msg, _) => if !c.writing && c.pending == [] then |msg| else 0
    case Writable(_) => if c.writing then |c.pending| else 0
    case _ => 0
  }

  /** What the kernel accepts of it. */
  function Accepted(c: Conn, op: ConnOp): nat {
    if (op.Send? || op.QueuedSend? || op.Writable?) && op.w.Accepts? then Min(op.w.n, Offer(c, op)) else 0
  }

  lemma SentOffers(c: Conn, msg: seq<Buffers.byte>, w: WriteResult)
    ensures |SentInLoop(c, msg, w).pending| == |c.pending| + |msg| - Accepted(c, QueuedSend(msg, w))
  {
  }

  lemma FlushedOffers(c: Conn, w: WriteResult)
    ensures |Flushed(c, w).pending| == |c.pending| - Accepted(c, Writable(w))
  {
  }

  /** The kernel is offered everything that may be: nothing it would have accepted stays queued. */
  lemma EverythingIsOffered(c: Conn, op: ConnOp)
    requires Legal(c, op)
    ensures |Step(c, op).pending| == |c.pending| + |Message(c.state, op)| - Accepted(c, op)
  {
    match op
    case Send(msg, w) => SentOffers(c, msg, w);
    case QueuedSend(msg, w) => SentOffers(c, msg, w);
    case Writable(w) => FlushedOffers(c, w);
    case _ =>
  }

  /** And as long as part of a message is left, closed or not, the loop is to report writability. */
  lemma LeftoverIsWatched(c: Conn, op: ConnOp)
    requires Legal(c, op) && Accepted(c, op) < |Message(c.state, op)|
    ensures Step(c, op).writing
  {
  }

  /** The message callback is shown all bytes that are left, and gets as many as it takes. */
  lemma EverythingIsShown(c: Conn, bytes: seq<Buffers.byte>, take: nat)
    requires bytes != []
    ensures var d := Step(c, Readable(Arrives(bytes, take)));
            |d.consumed| == |c.consumed| + Min(take, |c.input| + |bytes|)
  {
  }

  // ----- The end of a connection -----

  /** End of file, or a read of nothing. */
  predicate Ends(op: ConnOp) {
    op.Close? || op.Destroy? || (op.Readable? && (op.r.EndOfFile? || (op.r.Arrives? && op.r.bytes == [])))
  }

  lemma {:induction false} StepCloses(c: Conn, op: ConnOp)
    requires Legal(c, op) && WriteSide(c)
    requires c.reading <==> c.state != Connecting && !c.closed
    ensures var d := Step(c, op);
            && (d.closed <==> c.closed || Ends(op))
            && (d.reading <==> d.state != Connecting && !d.closed)
  {
  }

  lemma {:induction false} ClosedExactly(c: Conn, ops: seq<ConnOp>)
    requires LegalRun(c, ops) && WriteSide(c)
    requires c.reading <==> c.state != Connecting && !c.closed
    ensures var r := Run(c, ops);
            && (r.closed <==> c.closed || exists op | op in ops :: Ends(op))
            && (r.reading <==> r.state != Connecting && !r.closed)
    decreases |ops|
  {
    if ops != [] {
      assert ops == [ops[0]] + ops[1..];
      assert ops[0] in ops;
      StepKeepsWriteSide(c, ops[0]);
      StepCloses(c, ops[0]);
      ClosedExactly(Step(c, ops[0]), ops[1..]);
    }
  }

  /** A connection reads from when it is established until it is closed, destroyed, or at end of file. */
  lemma ReadsUntilClosed(notify: bool, ops: seq<ConnOp>)
    requires LegalRun(NewConn(notify), ops)
    ensures Run(NewConn(notify), ops).reading <==>
      StateAfter(Connecting, ops) != Connecting && forall op | op in ops :: !Ends(op)
  {
    ClosedExactly(NewConn(notify), ops);
    RunTakesIn(NewConn(notify), ops);
  }

  /** And once that has happened, it is watched for nothing until another message comes. */
  lemma ClosingIsSilent(c: Conn, op: ConnOp)
    requires Ends(op)
    ensures !Step(c, op).reading && !Step(c, op).writing
  {
  }

  // ----- Shutting down -----

  /** Shutdown of a connected connection takes effect: it is disconnecting at once; and unless it has
      been closed, as many productive writable events as there are bytes queued deliver everything and
      then shut the write side. */
  lemma ShutdownTakesEffect(notify: bool, ops: seq<ConnOp>, events: seq<ConnOp>)
    requires LegalRun(NewConn(notify), ops) && StateAfter(Connecting, ops) == Connected
    requires forall op | op in events :: op.Writable? && op.w.Accepts? && op.w.n > 0
    requires |events| >= |Run(NewConn(notify), ops).pending|
    ensures Step(Run(NewConn(notify), ops), Shutdown).state == Disconnecting
    ensures !Run(NewConn(notify), ops).closed ==>
      var d := Run(Step(Run(NewConn(notify), ops), Shutdown), events);
      && d.state == Disconnecting && ShutWr in d.calls && d.pending == []
      && Wire(d.calls) == d.sent == Given(Connecting, ops)
  {
    var c := Run(NewConn(notify), ops);
    var e := Step(c, Shutdown);
    RunKeepsInv(NewConn(notify), ops);
    RunTakesIn(NewConn(notify), ops);
    StepConserves(c, Shutdown);
    StepKeepsWriteSide(c, Shutdown);
    if !c.closed {
      if c.writing {
        BacklogDrains(e, events);
        WritableKeepsSent(e, events);
      } else {
        IdleWritable(e, events);
        AllOut(e);
      }
    }
  }

  lemma {:induction false} WritableKeepsSent(c: Conn, ops: seq<ConnOp>)
    requires forall op | op in ops :: op.Writable?
    ensures Run(c, ops).sent == c.sent
    decreases |ops|
  {
    if ops != [] {
      assert ops[0] in ops;
      WritableKeepsSent(Step(c, ops[0]), ops[1..]);
    }
  }

  // ----- Completion -----

  /** The write-complete callback is queued, if there is one, by exactly those operations that make a
      successful write after which everything given to the connection has been accepted. */
  lemma CompletesExactly(notify: bool, ops: seq<ConnOp>, op: ConnOp)
    requires LegalRun(NewConn(notify), ops) && Legal(Run(NewConn(notify), ops), op)
    ensures var c := Run(NewConn(notify), ops); var d := Step(c, op);
            d.completions == c.completions +
              if notify && (op.Send? || op.QueuedSend? || op.Writable?) && op.w.Accepts?
                 && |d.calls| > |c.calls| && d.calls[|c.calls|].Wrote? && Wire(d.calls) == d.sent then 1 else 0
  {
    var c := Run(NewConn(notify), ops);
    RunKeepsInv(NewConn(notify), ops);
    RunKeepsNotify(NewConn(notify), ops);
    StepConserves(c, op);
    AllOut(Step(c, op));
    assert |Wire(Step(c, op).calls)| + |Step(c, op).pending| == |Step(c, op).sent|;
    CompletesWhenOut(c, op);
  }

  /** A successful write, after which nothing is queued. */
  predicate WritesAllOut(c: Conn, op: ConnOp, d: Conn) {
    && (op.Send? || op.QueuedSend? || op.Writable?) && op.w.Accepts?
    && |d.calls| > |c.calls| && d.calls[|c.calls|].Wrote? && d.pending == []
  }

  lemma SentCompletes(c: Conn, msg: seq<Buffers.byte>, w: WriteResult)
    requires Busy(c)
    ensures var d := SentInLoop(c, msg, w);
            d.completions == c.completions + if c.notify && WritesAllOut(c, QueuedSend(msg, w), d) then 1 else 0
  {
  }

  lemma FlushedCompletes(c: Conn, w: WriteResult)
    requires Busy(c)
    ensures var d := Flushed(c, w);
            d.completions == c.completions + if c.notify && WritesAllOut(c, Writable(w), d) then 1 else 0
  {
  }

  lemma CompletesWhenOut(c: Conn, op: ConnOp)
    requires Busy(c)
    ensures var d := Step(c, op);
            d.completions == c.completions + if c.notify && WritesAllOut(c, op, d) then 1 else 0
  {
    match op
    case Send(msg, w) => SentCompletes(c, msg, w);
    case QueuedSend(msg, w) => SentCompletes(c, msg, w);
    case Writable(w) => FlushedCompletes(c, w);
    case _ =>
  }
}
