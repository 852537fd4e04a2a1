/** A connector's life (net/Connector.cc): connection attempts, retries with back-off, and what
    becomes of every socket it creates. Sockets are numbered in the order of their creation, since the
    kernel may use a closed descriptor again. */
module ConnectorModel {
  import opened Common

  datatype State = Disconnected | Connecting | Connected

  /** What connect(2) reports, by the connector's three ways to go on. */
  datatype Attempt = InProgress | TryLater | Hopeless

  /** What a writable socket turns out to be. */
  datatype Outcome = SocketError | SelfConnect | Established

  /** A socket: its descriptor, and how often that was closed and handed over on its behalf. */
  datatype Socket = Socket(fd: nat, closed: nat, handed: nat) {
    function Disposals(): nat {
      closed + handed
    }
  }

  /** The channel object; it outlives its registration until the queued reset runs. */
  datatype Chan = Chan(socket: nat, registered: bool)

  datatype Connector = Connector(
    state: State,
    connect: bool,
    channel: Option<Chan>,
    sockets: seq<Socket>,
    delay: nat,
    timer: Option<nat>,
    resets: nat)

  const INIT_RETRY_DELAY_MS: nat := 500
  const MAX_RETRY_DELAY_MS: nat := 30000

  // ----- Steps -----

  ghost function CloseSocket(sockets: seq<Socket>, s: nat): seq<Socket>
    requires s < |sockets|
  {
    sockets[s := sockets[s].(closed := sockets[s].closed + 1)]
  }

  ghost function HandOver(sockets: seq<Socket>, s: nat): seq<Socket>
    requires s < |sockets|
  {
    sockets[s := sockets[s].(handed := sockets[s].handed + 1)]
  }

  ghost function Retried(c: Connector, s: nat): Connector
    requires s < |c.sockets|
  {
    var d := c.(sockets := CloseSocket(c.sockets, s), state := Disconnected);
    if c.connect then
      d.(timer := Some(c.delay), delay := Min(c.delay * 2, MAX_RETRY_DELAY_MS))
    else d
  }

  /** `connect`, if it is still wanted: a new socket, and one of three ways on. */
  ghost function Attempted(c: Connector, fd: nat, a: Attempt): Connector {
    if !c.connect then c else
    var s := |c.sockets|;
    var d := c.(sockets := c.sockets + [Socket(fd, 0, 0)]);
    match a
    case InProgress => d.(state := Connecting, channel := Some(Chan(s, true)))
    case TryLater => Retried(d, s)
    case Hopeless => d.(sockets := CloseSocket(d.sockets, s))
  }

  ghost function Detached(c: Connector): Connector
    requires c.channel.Some?
  {
    c.(channel := Some(c.channel.value.(registered := false)), resets := c.resets + 1)
  }

  /** `Stop` says whether the retry timer is already in the running batch of timers, in which case
      its callback still comes (base/TimerQueue.cc:108-126). */
  datatype Event =
    | Start(fd: nat, a: Attempt)
    | Restart(fd: nat, a: Attempt)
    | Stop(late: bool)
    | Writable(o: Outcome)
    | Error
    | RetryTimer(fd: nat, a: Attempt)
    | ResetChannel

  /** `connecting` asserts that the last attempt's channel is gone. */
  ghost predicate Attemptable(c: Connector, a: Attempt) {
    a.InProgress? ==> c.channel.None?
  }

  /** `Start` only from idle, `Restart` only after a connection attempt has ended well; otherwise what
      the source's assertions ask of its callers and its loop. */
  ghost predicate Legal(c: Connector, e: Event) {
    match e
    case Start(_, a) => c.state == Disconnected && c.timer.None? && Attemptable(c, a)
    case Restart(_, a) => c.state == Connected && Attemptable(c, a)
    case Stop(_) => true
    case Writable(_) => c.channel.Some? && c.channel.value.socket < |c.sockets| && c.state != Connected
    case Error => c.channel.Some? && c.channel.value.registered && c.channel.value.socket < |c.sockets|
    case RetryTimer(_, a) => c.timer.Some? && (c.connect ==> Attemptable(c, a))
    case ResetChannel => c.resets > 0
  }

  ghost function Step(c: Connector, e: Event): Connector
    requires Legal(c, e)
  {
    match e
    case Start(fd, a) => Attempted(c.(connect := true), fd, a)
    case Restart(fd, a) =>
      Attempted(c.(state := Disconnected, delay := INIT_RETRY_DELAY_MS, connect := true), fd, a)
    case Stop(late) => c.(connect := false, timer := if late then c.timer else None)
    case Writable(o) =>
      if c.state != Connecting then c else
      var s := c.channel.value.socket;
      if o == Established then
        Detached(c).(state := Connected,
                     sockets := if c.connect then HandOver(c.sockets, s) else CloseSocket(c.sockets, s))
      else Retried(Detached(c), s)
    case Error => Retried(Detached(c), c.channel.value.socket)
    case RetryTimer(fd, a) => Attempted(c.(timer := None), fd, a)
    case ResetChannel => c.(channel := None, resets := c.resets - 1)
  }

  ghost predicate LegalRun(c: Connector, es: seq<Event>)
    decreases |es|
  {
    es != [] ==> Legal(c, es[0]) && LegalRun(Step(c, es[0]), es[1..])
  }

  ghost function Run(c: Connector, es: seq<Event>): Connector
    requires LegalRun(c, es)
    decreases |es|
  {
    if es == [] then c else Run(Step(c, es[0]), es[1..])
  }

  const INITIALLY := Connector(Disconnected, false, None, [], INIT_RETRY_DELAY_MS, None, 0)

  // ----- What every step keeps -----

  ghost predicate Registered(c: Connector) {
    c.channel.Some? && c.channel.value.registered
  }

  /** The registered channel's socket. */
  ghost predicate Owned(c: Connector, s: nat) {
    Registered(c) && s == c.channel.value.socket
  }

  /** A socket has been disposed of once, or belongs to the registered channel and has not been yet. */
  ghost predicate SocketsAccounted(c: Connector) {
    && (c.channel.Some? ==> c.channel.value.socket < |c.sockets|)
    && (forall s | 0 <= s < |c.sockets| :: c.sockets[s].Disposals() == if Owned(c, s) then 0 else 1)
  }

  ghost predicate ChannelAccounted(c: Connector) {
    && (Registered(c) <==> c.state == Connecting)
    && c.resets == (if c.channel.Some? && !c.channel.value.registered then 1 else 0)
    && (c.timer.Some? ==> c.state == Disconnected)
  }

  ghost predicate Inv(c: Connector) {
    SocketsAccounted(c) && ChannelAccounted(c)
  }

  lemma StepKeepsInv(c: Connector, e: Event)
    requires Inv(c) && Legal(c, e)
    ensures Inv(Step(c, e))
  {
  }

  lemma {:induction false} RunKeepsInv(c: Connector, es: seq<Event>)
    requires Inv(c) && LegalRun(c, es)
    ensures Inv(Run(c, es))
    decreases |es|
  {
    if es != [] {
      StepKeepsInv(c, es[0]);
      RunKeepsInv(Step(c, es[0]), es[1..]);
    }
  }

  // ----- Results -----

  /** Conservation: in every reachable state each socket ever created has been closed once and not
      handed over, or handed over once and not closed, or is the one socket of the registered channel
      while connecting, and has been neither. */
  lemma SocketsConserved(es: seq<Event>)
    requires LegalRun(INITIALLY, es)
    ensures var c := Run(INITIALLY, es);
            && (c.state == Connecting <==> Registered(c))
            && (Registered(c) ==> c.channel.value.socket < |c.sockets|)
            && forall s | 0 <= s < |c.sockets| ::
                 c.sockets[s].closed + c.sockets[s].handed == if Owned(c, s) then 0 else 1
  {
    RunKeepsInv(INITIALLY, es);
  }

  /** Once: a socket that has been closed or handed over is neither closed nor handed over again. And
      a socket keeps its descriptor. */
  lemma {:induction false} FateIsFinal(c: Connector, es: seq<Event>, s: nat)
    requires Inv(c) && LegalRun(c, es) && s < |c.sockets|
    ensures s < |Run(c, es).sockets| && Run(c, es).sockets[s].fd == c.sockets[s].fd
    ensures c.sockets[s].Disposals() > 0 ==> Run(c, es).sockets[s] == c.sockets[s]
    decreases |es|
  {
    if es != [] {
      StepKeepsInv(c, es[0]);
      FateIsFinal(Step(c, es[0]), es[1..], s);
    }
  }

  ghost predicate Begins(e: Event) {
    e.Start? || e.Restart?
  }

  lemma {:induction false} QuietWhileUnwanted(c: Connector, es: seq<Event>)
    requires Inv(c) && !c.connect && LegalRun(c, es)
    requires forall e | e in es :: !Begins(e)
    ensures var d := Run(c, es);
            && |d.sockets| == |c.sockets| && !d.connect
            && forall s | 0 <= s < |c.sockets| :: d.sockets[s].handed == c.sockets[s].handed
    decreases |es|
  {
    if es != [] {
      assert es[0] in es;
      StepKeepsInv(c, es[0]);
      QuietWhileUnwanted(Step(c, es[0]), es[1..]);
    }
  }

  /** From a `stop` on nothing is created and nothing handed over until the next `start` or `restart`,
      even if the retry timer's callback still comes. */
  lemma QuietAfterStop(c: Connector, late: bool, es: seq<Event>)
    requires Inv(c) && LegalRun(c, [Stop(late)] + es)
    requires forall e | e in es :: !Begins(e)
    ensures var d := Run(c, [Stop(late)] + es);
            && |d.sockets| == |c.sockets| && !d.connect
            && forall s | 0 <= s < |c.sockets| :: d.sockets[s].handed == c.sockets[s].handed
  {
    assert ([Event.Stop(late)] + es)[1..] == es;
    StepKeepsInv(c, Event.Stop(late));
    QuietWhileUnwanted(Step(c, Event.Stop(late)), es);
  }

  // ----- What attempts come to -----

  ghost predicate Attempts(e: Event) {
    e.Start? || e.Restart? || e.RetryTimer?
  }

  /** The last attempt of the run failed for a reason that will not go away. */
  ghost predicate GaveUp(es: seq<Event>)
    decreases |es|
  {
    es != [] &&
    var last := es[|es| - 1];
    if Attempts(last) then last.a.Hopeless? else GaveUp(es[..|es| - 1])
  }

  lemma {:induction false} RunSnoc(c: Connector, es: seq<Event>)
    requires LegalRun(c, es) && es != []
    ensures var front := es[..|es| - 1];
            && LegalRun(c, front) && Legal(Run(c, front), es[|es| - 1])
            && Run(c, es) == Step(Run(c, front), es[|es| - 1])
    decreases |es|
  {
    if |es| > 1 {
      RunSnoc(Step(c, es[0]), es[1..]);
      assert es[1..][..|es| - 2] == es[..|es| - 1][1..];
    }
  }

  /** A connection that is wanted is never forgotten: it is there, or being attempted, or a retry is
      outstanding, or else the last attempt was hopeless. */
  lemma {:induction false} NeverForgotten(es: seq<Event>)
    requires LegalRun(INITIALLY, es)
    ensures var c := Run(INITIALLY, es);
            c.connect ==> (c.state == Disconnected && c.timer.None? <==> GaveUp(es))
    decreases |es|
  {
    if es != [] {
      RunSnoc(INITIALLY, es);
      NeverForgotten(es[..|es| - 1]);
      RunKeepsInv(INITIALLY, es[..|es| - 1]);
    }
  }

  /** A wanted attempt makes one new socket, for this descriptor; no other event makes any. */
  lemma OneSocketPerAttempt(c: Connector, e: Event)
    requires Inv(c) && Legal(c, e)
    ensures var d := Step(c, e);
            && |c.sockets| <= |d.sockets| <= |c.sockets| + 1
            && (|d.sockets| > |c.sockets| <==> Attempts(e) && (e.RetryTimer? ==> c.connect))
            && (|d.sockets| > |c.sockets| ==>
                  d.sockets[|c.sockets|].fd == e.fd && (d.state == Connecting <==> e.a.InProgress?))
  {
  }

  /** What the next attempt asserts: between attempts the channel object is gone if and only if no
      reset is queued. So a retry that is still wanted may go on to a new channel exactly then. */
  lemma NextAttemptIsClear(es: seq<Event>, fd: nat)
    requires LegalRun(INITIALLY, es)
    ensures var c := Run(INITIALLY, es);
            && (c.state != Connecting ==> (c.channel.None? <==> c.resets == 0))
            && (c.timer.Some? ==> (Legal(c, RetryTimer(fd, InProgress)) <==> (c.connect ==> c.resets == 0)))
  {
    RunKeepsInv(INITIALLY, es);
  }

  /** The assertion can fail: an error, then the retry timer before the queued reset. */
  lemma TimerBeforeReset(fd: nat, fd': nat)
    ensures var es := [Start(fd, InProgress), Error];
            && LegalRun(INITIALLY, es)
            && Run(INITIALLY, es).timer.Some? && Run(INITIALLY, es).connect
            && !Legal(Run(INITIALLY, es), RetryTimer(fd', InProgress))
  {
    var es := [Event.Start(fd, InProgress), Error];
    var c := Step(INITIALLY, es[0]);
    assert es[1..] == [Error] && [Error][1..] == [];
    assert LegalRun(Step(c, Error), []);
    assert LegalRun(c, [Error]) && Run(c, [Error]) == Step(c, Error);
  }

  function Power2(n: nat): (p: nat)
    ensures p >= 1
  {
    if n == 0 then 1 else 2 * Power2(n - 1)
  }

  /** The event has a retry scheduled. */
  ghost predicate Schedules(c: Connector, e: Event)
    requires Legal(c, e)
  {
    Step(c, e).timer.Some? && (c.timer.None? || e.RetryTimer?)
  }

  /** How many retries have been scheduled since the last restart. */
  ghost function Retries(es: seq<Event>): nat
    requires LegalRun(INITIALLY, es)
    decreases |es|
  {
    if es == [] then 0
    else
      RunSnoc(INITIALLY, es);
      var front, last := es[..|es| - 1], es[|es| - 1];
      (if last.Restart? then 0 else Retries(front)) + if Schedules(Run(INITIALLY, front), last) then 1 else 0
  }

  function Backoff(n: nat): nat {
    Min(500 * Power2(n), 30000)
  }

  ghost predicate BackedOff(c: Connector, n: nat) {
    && c.delay == Backoff(n)
    && (c.timer.Some? ==> n > 0 && c.timer.value == Backoff(n - 1))
  }

  lemma StepBacksOff(c: Connector, e: Event, n: nat)
    requires Inv(c) && Legal(c, e) && BackedOff(c, n)
    ensures BackedOff(Step(c, e), (if e.Restart? then 0 else n) + if Schedules(c, e) then 1 else 0)
  {
    assert Backoff(n + 1) == Min(Backoff(n) * 2, MAX_RETRY_DELAY_MS);
    assert Backoff(0) == 500 && Backoff(1) == 1000;
  }

  /** Exponential back-off: the n-th retry since the last restart, counted from 0, is scheduled
      min(500 * 2^n, 30000) ms ahead. */
  lemma {:induction false} DelayDoubles(es: seq<Event>)
    requires LegalRun(INITIALLY, es)
    ensures var c := Run(INITIALLY, es); var n := Retries(es);
            && c.delay == Backoff(n)
            && (c.timer.Some? ==> n > 0 && c.timer.value == Backoff(n - 1))
    decreases |es|
  {
    if es != [] {
      RunSnoc(INITIALLY, es);
      var c := Run(INITIALLY, es[..|es| - 1]);
      DelayDoubles(es[..|es| - 1]);
      RunKeepsInv(INITIALLY, es[..|es| - 1]);
      StepBacksOff(c, es[|es| - 1], Retries(es[..|es| - 1]));
    } else {
      assert Backoff(0) == 500;
    }
  }
}
