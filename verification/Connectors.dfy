/** The connector on a real channel and a real multiplexer (net/Connector.cc), and the client that
    takes its sockets over (net/TcpClient.cc). */
module Connectors {
  import opened Common
  import opened Channels
  import opened EPolling
  import opened ConnectorModel
  import Connections

  class Connector {
    const loop: EPoller
    var state: State
    var connect: bool
    var channel: Channel?
    var retryDelayMs: nat
    /** The outstanding retry timer's delay, and how many resetChannel functors wait in the loop. */
    var timer: Option<nat>
    var resets: nat

    /** The sockets so far, and the one the channel was made for. */
    ghost var sockets: seq<Socket>
    ghost var socket: nat

    constructor (loop: EPoller)
      requires loop.Valid()
      ensures Valid() && this.loop == loop && View() == INITIALLY
    {
      this.loop := loop;
      state, connect, channel, retryDelayMs, timer, resets := Disconnected, false, null, INIT_RETRY_DELAY_MS, None, 0;
      sockets, socket := [], 0;
    }

    ghost function View(): ConnectorModel.Connector
      reads this, channel
    {
      ConnectorModel.Connector(state, connect,
        if channel == null then None else Some(Chan(socket, channel.index != NEW)),
        sockets, retryDelayMs, timer, resets)
    }

    /** The channel is the multiplexer's and watches for writability. */
    ghost predicate Watching()
      reads this, channel, loop
    {
      channel != null && loop.Knows(channel) && loop.Registered(channel) && channel.events == WRITE_EVENT
    }

    /** A channel has the descriptor of its socket; it is either watching or blank and awaiting its reset. */
    ghost predicate Attached()
      reads this, channel, loop
    {
      channel != null ==>
        && socket < |sockets| && channel.fd == sockets[socket].fd
        && if channel.index == NEW then channel.events == NONE_EVENT else Watching()
    }

    ghost predicate Valid()
      reads this, channel, loop, loop.channels.Values
    {
      loop.Valid() && Attached() && Inv(View())
    }

    /** close(2) of a descriptor, the one of a socket that has not been disposed of. */
    method Close(fd: nat, ghost s: nat)
      requires s < |sockets| && sockets[s] == Socket(fd, 0, 0)
      modifies this`sockets
      ensures sockets == CloseSocket(old(sockets), s)
    {
      sockets := CloseSocket(sockets, s);
    }

    /** The socket is closed, and a retry is scheduled if the connection is still wanted. */
    method Retry(fd: nat, ghost s: nat)
      requires s < |sockets| && sockets[s] == Socket(fd, 0, 0)
      modifies this`sockets, this`state, this`timer, this`retryDelayMs
      ensures View() == Retried(old(View()), s)
      ensures state == Disconnected && timer == if connect then Some(old(retryDelayMs)) else old(timer)
    {
      Close(fd, s);
      state := Disconnected;
      if connect {
        timer := Some(retryDelayMs);
        retryDelayMs := Min(retryDelayMs * 2, MAX_RETRY_DELAY_MS);
      }
    }

    /** `connecting`: the source asserts that the last attempt's channel is gone. */
    method WatchForConnection(fd: nat, ghost s: nat)
      requires loop.Valid() && channel == null && fd !in loop.channels
      requires s < |sockets| && sockets[s].fd == fd
      modifies this`state, this`channel, this`socket, loop
      ensures loop.Valid() && Attached() && Watching() && fresh(channel) && channel.fd == fd
      ensures View() == old(View()).(state := Connecting, channel := Some(Chan(s, true)))
      ensures loop.KeptBut(fd)
    {
      state := Connecting;
      channel := new Channel(fd);
      socket := s;
      loop.EnableWriting(channel);
    }

    /** `startInLoop` and `connect`; `fd` is what the kernel would return for a new socket, which is
        never a descriptor some live channel holds. */
    method StartInLoop(fd: nat, a: Attempt)
      requires loop.Valid() && Attached() && state == Disconnected && (channel != null ==> channel.index == NEW)
      requires fd !in loop.channels && (connect ==> Attemptable(View(), a))
      modifies this, loop
      ensures loop.Valid() && Attached() && View() == Attempted(old(View()), fd, a)
      ensures loop.KeptBut(fd) && (state == Connecting ==> Watching() && fresh(channel) && channel.fd == fd)
      ensures state == Connecting || channel == old(channel)
      ensures connect && old(timer).None? ==> Came(fd, a)
    {
      if connect {
        ghost var s := |sockets|;
        sockets := sockets + [Socket(fd, 0, 0)];
        match a {
          case InProgress => WatchForConnection(fd, s);
          case TryLater => Retry(fd, s);
          case Hopeless => Close(fd, s);
        }
      }
    }

    /** What an attempt has come to: a channel watching for the connection, a retry, or nothing. */
    twostate predicate Came(fd: nat, a: Attempt)
      reads this
    {
      && |sockets| == |old(sockets)| + 1 && sockets[..|old(sockets)|] == old(sockets)
      && sockets[|old(sockets)|] == Socket(fd, if a == InProgress then 0 else 1, 0)
      && state == (if a == InProgress then Connecting else Disconnected)
      && (timer.Some? <==> a == TryLater)
    }

    method Start(fd: nat, a: Attempt)
      requires Valid() && Legal(View(), Event.Start(fd, a)) && fd !in loop.channels
      modifies this, loop
      ensures Valid() && View() == Step(old(View()), Event.Start(fd, a))
      ensures connect && Came(fd, a)
      ensures loop.KeptBut(fd) && (state == Connecting ==> Watching() && fresh(channel) && channel.fd == fd)
    {
      StepKeepsInv(View(), Event.Start(fd, a));
      connect := true;
      StartInLoop(fd, a);
    }

    method Restart(fd: nat, a: Attempt)
      requires Valid() && Legal(View(), Event.Restart(fd, a)) && fd !in loop.channels
      modifies this, loop
      ensures Valid() && View() == Step(old(View()), Event.Restart(fd, a))
      ensures connect && Came(fd, a)
      ensures loop.KeptBut(fd) && (state == Connecting ==> Watching() && fresh(channel) && channel.fd == fd)
    {
      StepKeepsInv(View(), Event.Restart(fd, a));
      state := Disconnected;
      retryDelayMs := INIT_RETRY_DELAY_MS;
      connect := true;
      StartInLoop(fd, a);
    }

    /** Cancelling the retry timer comes too late if its batch is already running. */
    method Stop(late: bool)
      requires Valid()
      modifies this`connect, this`timer
      ensures Valid() && View() == Step(old(View()), Event.Stop(late))
      ensures !connect && timer == if late then old(timer) else None
    {
      StepKeepsInv(View(), Event.Stop(late));
      connect := false;
      timer := if late then timer else None;
    }

    /** The retry timer runs startInLoop. */
    method OnRetryTimer(fd: nat, a: Attempt)
      requires Valid() && Legal(View(), RetryTimer(fd, a)) && fd !in loop.channels
      modifies this, loop
      ensures Valid() && View() == Step(old(View()), RetryTimer(fd, a))
      ensures connect == old(connect) && if connect then Came(fd, a) else timer == None && sockets == old(sockets)
      ensures loop.KeptBut(fd) && (state == Connecting ==> Watching() && fresh(channel) && channel.fd == fd)
    {
      StepKeepsInv(View(), RetryTimer(fd, a));
      timer := None;
      StartInLoop(fd, a);
    }

    /** The descriptor leaves the multiplexer now; the channel object goes when the loop gets to it. */
    method RemoveAndResetChannel() returns (fd: nat)
      requires loop.Valid() && Attached() && Watching()
      modifies this`resets, loop, channel`events, channel`index
      ensures loop.Valid() && Attached() && fd == channel.fd == sockets[socket].fd
      ensures View() == Detached(old(View()))
      ensures loop.KeptBut(fd) && fd !in loop.channels && fd !in loop.interest
    {
      loop.Deregister(channel);
      fd := channel.fd;
      resets := resets + 1;
    }

    method ResetChannelNow()
      requires Valid() && Legal(View(), ResetChannel)
      modifies this`channel, this`resets
      ensures Valid() && View() == Step(old(View()), ResetChannel)
    {
      StepKeepsInv(View(), ResetChannel);
      channel := null;
      resets := resets - 1;
    }

    /** newConnectionCallback_: the descriptor of a socket that has not been disposed of goes to the client. */
    method HandOverTo(fd: nat, ghost s: nat) returns (handed: Option<nat>)
      requires s < |sockets| && sockets[s] == Socket(fd, 0, 0)
      modifies this`sockets
      ensures sockets == HandOver(old(sockets), s) && handed == Some(fd)
    {
      sockets := HandOver(sockets, s);
      handed := Some(fd);
    }

    /** What becomes of a socket that turned out writable. */
    method Settle(fd: nat, o: Outcome) returns (handed: Option<nat>)
      requires socket < |sockets| && sockets[socket] == Socket(fd, 0, 0)
      modifies this`sockets, this`state, this`timer, this`retryDelayMs
      ensures View() == if o != Established then Retried(old(View()), socket)
                        else old(View()).(state := Connected,
                                          sockets := if connect then HandOver(old(sockets), socket)
                                                     else CloseSocket(old(sockets), socket))
      ensures handed == if o == Established && connect then Some(fd) else None
    {
      handed := None;
      if o != Established {
        Retry(fd, socket);
      } else {
        state := Connected;
        if connect {
          handed := HandOverTo(fd, socket);
        } else {
          Close(fd, socket);
        }
      }
    }

    /** The write callback. The descriptor it hands over is that of the socket it was watching, neither
        closed nor handed over before, and it has left the multiplexer. */
    method HandleWrite(o: Outcome) returns (handed: Option<nat>)
      requires Valid() && Legal(View(), Writable(o))
      modifies this, loop, channel`events, channel`index
      ensures Valid() && View() == Step(old(View()), Writable(o))
      ensures handed.Some? <==> old(state) == Connecting && o == Established && connect
      ensures old(state) == Connecting ==>
        && state == (if o == Established then Connected else Disconnected)
        && (timer.Some? <==> o != Established && connect)
      ensures channel == old(channel) && channel != null && loop.KeptBut(channel.fd)
      ensures handed.Some? ==>
        && handed.value == channel.fd && handed.value !in loop.channels && handed.value !in loop.interest
        && socket < |sockets| && old(sockets)[socket] == Socket(handed.value, 0, 0)
        && sockets[socket] == Socket(handed.value, 0, 1)
    {
      StepKeepsInv(View(), Writable(o));
      handed := None;
      if state == Connecting {
        var fd := RemoveAndResetChannel();
        handed := Settle(fd, o);
      }
    }

    method HandleError()
      requires Valid() && Legal(View(), Error)
      modifies this, loop, channel`events, channel`index
      ensures Valid() && View() == Step(old(View()), Error)
      ensures channel == old(channel) && channel != null && loop.KeptBut(channel.fd)
      ensures state == Disconnected && (timer.Some? <==> connect)
    {
      StepKeepsInv(View(), Error);
      var fd := RemoveAndResetChannel();
      Retry(fd, socket);
    }

    /** Channel::handleEvent on the connector's channel, which has an error and a write callback: an
        event that reports both disposes of the socket once, as an error. */
    method HandleEvent(revents: Mask, o: Outcome) returns (handed: Option<nat>)
      requires Valid() && channel != null && channel.index != NEW
      modifies this, loop, channel`events, channel`index
      ensures Valid() && channel == old(channel) && loop.KeptBut(channel.fd)
      ensures Legal(old(View()), Error) && Legal(old(View()), Writable(o))
      ensures View() == if OnError in Dispatch(revents) then Step(old(View()), Error)
                        else if OnWrite in Dispatch(revents) then Step(old(View()), Writable(o))
                        else old(View())
      ensures handed.Some? <==>
        OnError !in Dispatch(revents) && OnWrite in Dispatch(revents) && o == Established && connect
      ensures handed.Some? ==>
        && handed.value == channel.fd && handed.value !in loop.channels && handed.value !in loop.interest
        && socket < |sockets| && old(sockets)[socket] == Socket(handed.value, 0, 0)
        && sockets[socket] == Socket(handed.value, 0, 1)
    {
      handed := None;
      if OnError in Dispatch(revents) {
        HandleError();
      }
      if OnWrite in Dispatch(revents) {
        handed := HandleWrite(o);
      }
    }
  }

  /** One step of a run, made by a real connector. The kernel returns no descriptor that a channel holds. */
  method Perform(c: Connector, e: Event) returns (handed: Option<nat>)
    requires c.Valid() && Legal(c.View(), e)
    requires e.Start? || e.Restart? || e.RetryTimer? ==> e.fd !in c.loop.channels
    modifies c, c.loop, if c.channel == null then {} else {c.channel}
    ensures c.Valid() && c.View() == Step(old(c.View()), e)
    ensures handed.Some? ==> e.Writable? && handed.value !in c.loop.channels && handed.value !in c.loop.interest
    ensures handed.Some? ==>
      && c.socket < |old(c.sockets)| && c.sockets == HandOver(old(c.sockets), c.socket)
      && old(c.sockets)[c.socket] == Socket(handed.value, 0, 0)
    ensures handed.None? ==> forall s | 0 <= s < |old(c.sockets)| :: c.sockets[s].handed == old(c.sockets)[s].handed
  {
    handed := None;
    match e {
      case Start(fd, a) => c.Start(fd, a);
      case Restart(fd, a) => c.Restart(fd, a);
      case Stop(late) => c.Stop(late);
      case Writable(o) => handed := c.HandleWrite(o);
      case Error => c.HandleError();
      case RetryTimer(fd, a) => c.OnRetryTimer(fd, a);
      case ResetChannel => c.ResetChannelNow();
    }
  }

  class TcpClient {
    const loop: EPoller
    const connector: Connector
    var connection: Connections.TcpConnection?
    var nextConnId: nat
    var retry: bool
    var connect: bool
    /** The connections whose connectDestroyed waits in the loop. */
    var leaving: seq<Connections.TcpConnection>

    constructor (loop: EPoller, connector: Connector)
      requires connector.loop == loop && connector.Valid()
      ensures this.loop == loop && this.connector == connector && connection == null
      ensures Valid() && nextConnId == 1 && !retry && connect && leaving == []
    {
      this.loop, this.connector := loop, connector;
      connection, nextConnId, retry, connect, leaving := null, 1, false, true, [];
    }

    /** A client with a connection has a connector that is done. */
    ghost predicate Valid()
      reads this, connector, connector.channel, loop, loop.channels.Values
    {
      && connector.loop == loop && connector.Valid()
      && (connection != null ==> connector.state == Connected)
    }

    method NewConnection(fd: nat, notify: bool)
      requires loop.Valid() && fd !in loop.channels
      modifies this`connection, this`nextConnId, loop
      ensures loop.Valid() && loop.KeptBut(fd) && nextConnId == old(nextConnId) + 1
      ensures connection != null && fresh(connection) && fresh(connection.channel)
      ensures connection.loop == loop && connection.channel.fd == fd && connection.Valid()
      ensures connection.View() == Connections.Established(Connections.NewConn(notify))
      ensures loop.Registered(connection.channel)
    {
      var conn := new Connections.TcpConnection(loop, fd, notify);
      nextConnId := nextConnId + 1;
      connection := conn;
      conn.ConnectEstablished();
    }

    /** The hand-over: a socket the connector is done with becomes a connection whose channel is the
        only one registered for it, and never in place of another connection; any other outcome leaves
        the client as it was. */
    method OnConnectorEvent(revents: Mask, o: Outcome, notify: bool)
      requires Valid() && connector.channel != null && connector.channel.index != NEW
      modifies this`connection, this`nextConnId, connector, loop
      modifies connector.channel`events, connector.channel`index
      ensures Valid() && old(connection) == null && connector.channel == old(connector.channel)
      ensures var fd := connector.channel.fd; var handed := connector.state == Connected && connector.connect;
              && loop.KeptBut(fd)
              && (handed ==>
                    && connection != null && fresh(connection) && connection.Valid()
                    && connection.channel != connector.channel && connector.channel.index == NEW
                    && fd in loop.channels && loop.channels[fd] == connection.channel
                    && loop.Registered(connection.channel)
                    && connection.View() == Connections.Established(Connections.NewConn(notify)))
              && (!handed ==> connection == null && nextConnId == old(nextConnId))
    {
      var handed := connector.HandleEvent(revents, o);
      if handed.Some? {
        NewConnection(handed.value, notify);
      }
    }

    /** The retry timer, and the functor that resets the channel. */
    method OnConnectorTurn(e: Event)
      requires Valid() && (e.RetryTimer? || e.ResetChannel?) && Legal(connector.View(), e)
      requires e.RetryTimer? ==> e.fd !in loop.channels
      modifies connector, loop
      ensures Valid() && connector.View() == Step(old(connector.View()), e)
    {
      match e
      case RetryTimer(fd, a) => connector.OnRetryTimer(fd, a);
      case ResetChannel => connector.ResetChannelNow();
    }

    method Connect(fd: nat, a: Attempt)
      requires Valid() && Legal(connector.View(), Event.Start(fd, a)) && fd !in loop.channels
      modifies this`connect, connector, loop
      ensures Valid() && connect && connector.connect
      ensures connector.View() == Step(old(connector.View()), Event.Start(fd, a))
    {
      connect := true;
      connector.Start(fd, a);
    }

    method Stop(late: bool)
      requires Valid()
      modifies this`connect, connector
      ensures Valid() && !connect && !connector.connect
      ensures connector.View() == Step(old(connector.View()), Event.Stop(late))
    {
      connect := false;
      connector.Stop(late);
    }

    /** The close callback: the connection is let go, and the connector starts over if asked to. */
    method RemoveConnection(conn: Connections.TcpConnection, fd: nat, a: Attempt)
      requires Valid() && connection == conn
      requires retry && connect ==> Attemptable(connector.View(), a) && fd !in loop.channels
      modifies this`connection, this`leaving, connector, loop
      ensures Valid() && connection == null && leaving == old(leaving) + [conn] && loop.KeptBut(fd)
      ensures connector.View() == if retry && connect then Step(old(connector.View()), Event.Restart(fd, a))
                                  else old(connector.View())
    {
      connection := null;
      leaving := leaving + [conn];
      if retry && connect {
        connector.Restart(fd, a);
      }
    }
  }
}
