# A verified model of the remuduo reactor

remuduo is a small reactor library: an event loop that polls descriptors, runs timers and executes
functors queued by other threads, and TCP connections driven by it. This project models five parts of
it in Dafny and proves what they promise over every run.

- **Timers** (`TimerModel`, `Timers`). `TimerQueue` keeps two indexes over the same heap objects, a set of
  cancellations and a one-shot timerfd, and its callbacks re-enter it. The object is proved to refine a
  plain set of pending timers: `View()` moves as `TimerModel.Step` says, for arbitrary callbacks (any
  script of adds and cancels, with any id, stale or invented; sequence numbers may be taken by other queues). Index agreement and single ownership of
  every heap object are its invariant. Addresses are numbers the allocator may use again. An add whose
  address is still occupied is no result an allocator can return; such a move changes nothing.
- **Connections** (`Buffers`, `Connections`, `ConnectionHistory`). The output path, the deferred half-close and the input path,
  on the real `Buffer`: an array slid and grown in place. `Conn` is a run seen from outside (messages in,
  socket calls out). A write accepts any prefix of what it is offered, or fails and accepts nothing. A run may
  contain messages queued by other threads, which the loop gets to whatever has become of the connection.
- **Event loop** (`LoopModel`, `EventLoops`). `LoopModel` is the functor and eventfd protocol as an
  interleaving of atomic steps of the loop thread and any number of other threads. `EventLoops.EventLoop`
  is the loop thread's code with other threads let in between its shared accesses; its invariant is that
  its recorded trace is a legal run of the protocol ending in its own state.
- **Multiplexers** (`Channels`, `EPolling`, `DensePolling`). Channels, the epoll multiplexer and its
  agreement with the kernel's interest list, and the dense poll multiplexer with swap-with-last removal.
- **Connector and client** (`ConnectorModel`, `Connectors`). Connection attempts, back-off, deferred channel
  reset, how often each socket is closed and handed over, and the hand-over of its descriptor to a new connection.

`ConnectionHistory`, `LoopModel.Tells`, `TimerModel.BatchLeaves` and the laws on retries describe a run by its
operations alone (what was sent, pushed, added, asked), so that they hold the step functions to account.

The pattern is the same throughout. Where the source changes an object, there is a class with the source's
fields, whose methods are proved against step functions on an abstract state; the results are lemmas about
every legal run of those steps. `Legal` holds the source's own assertions on its callers. User callbacks
that a method invokes as its last action appear as the next steps of the run.

## Findings

Five natural-looking claims are false of the code. Each has a lemma that says exactly when it holds.

- `disableAll` does not always leave a descriptor unregistered. On a channel that is not registered it adds
  the descriptor again with an empty mask, so every second call re-adds it (`EPolling.DisableAllAlternates`).
- `shutdown` can cut off bytes once a connection has been closed: exactly if it finds a backlog while the
  channel is not watched for writability (`Connections.ShutdownCutsExactly`,
  `Connections.ShutdownAfterCloseCuts`).
- The connection can write after SHUT_WR: exactly if, with the write side shut, a message queued by another thread
  is reached without a backlog, or a writable event while one is drained (`Connections.NothingFollowsShutWr`).
  Before any close the connection's own state tells: exactly if a queued message is reached when it is
  disconnecting with nothing left to write (`Connections.QueuedSendFollowsShutWr`, `Connections.LateSend`). After
  one it does not (`Connections.LateSendAfterDestroy`). Messages reached before SHUT_WR, and the loop thread's own,
  never do harm (`Connections.BeforeShutSuffices`).
- `Poller` does not watch every channel with a non-empty mask: a channel that is disabled and enabled again
  is lost (`DensePolling.WatchedUntilFirstDisabled`, `DensePolling.ReenabledStaysUnwatched`).
- A connector's retry may find the old channel object: exactly while the queued reset has not run
  (`ConnectorModel.NextAttemptIsClear`, `ConnectorModel.TimerBeforeReset`).

## Model

| member | source | states |
|---|---|---|
| Buffers.Layout.MadeSpace | net/Buffer.cc:35-47 | Making space always leaves at least `len` writable bytes and keeps the number of readable ones, whichever branch is taken. |
| Buffers.ReceivedIsAppended | net/Buffer.cc:13-33 | The two-part scatter read, spill area included, lays the buffer out exactly as one append of the same bytes, for every count. |
| Buffers.MemoryBounded | net/Buffer.h:79-84 | Over every run on two buffers, swaps included, no storage ever exceeds max(1032, 2P + 7), with P the largest number of readable bytes so far. |
| Buffers.MemoryBoundTight | net/Buffer.cc:35-38 | The bound is reached: fill, drain byte for byte, append one byte more. |
| Buffers.Buffer.constructor | net/Buffer.h:17-19 | A new buffer is empty, with 1032 bytes of storage and 8 bytes of prepend space. |
| Buffers.Buffer.Swap | net/Buffer.h:21-25 | Two buffers exchange contents, storage and indices. |
| Buffers.Buffer.Retrieve | net/Buffer.h:43-46 | The first `len` readable bytes are dropped, the rest unchanged. |
| Buffers.Buffer.RetrieveAll | net/Buffer.h:54-57 | The buffer is empty and has its prepend space back. |
| Buffers.Buffer.RetrieveAsString | net/Buffer.h:59-63 | Returns everything readable and leaves the buffer empty. |
| Buffers.Buffer.SlideDown | net/Buffer.cc:42 | The overlapping copy towards lower indices moves every byte intact. |
| Buffers.Buffer.MakeSpace | net/Buffer.cc:35-47 | In place or in new storage the readable bytes are preserved; the assertion `kCheapPrepend < readerIndex_` follows from the branch conditions alone. |
| Buffers.Buffer.EnsureWritableBytes | net/Buffer.h:79-84 | Room for `len` bytes, contents unchanged. |
| Buffers.Buffer.Append | net/Buffer.h:69-73 | The bytes are added at the end of the contents. |
| Buffers.Buffer.Prepend | net/Buffer.h:98-103 | The bytes are added in front of the contents, given that much prepend space. |
| Buffers.Buffer.ReadFd | net/Buffer.cc:13-33 | However many bytes arrive, they are appended to the contents in order; on failure nothing changes. |
| Buffers.Perform | net/Buffer.h:21-103 | For every run on two buffers, swaps included, the objects hold what plain byte sequences would hold and return the strings those would, within the memory bound. |
| Channels.Dispatch | net/Channel.cc:21-45 | Which callbacks returned events fire: each at most once, in the order close, error, read, write. |
| Channels.OneFlagOneCallback | net/Channel.cc:21-45 | Each flag by itself fires one callback; a hang-up with data left to read is no close yet. |
| Channels.ReadingReports | net/Channel.h:27-42 | A mask with reading on has ordinary and priority data reported to the read callback. |
| Channels.WritingReports | net/Channel.h:28-43 | A mask with writing on has writability reported to the write callback. |
| Channels.NotWritingReports | net/Channel.h:29-43 | A mask with writing off has not. |
| EPolling.EPoller.UpdateChannel | net/EPoller.cc:60-92 | Restores agreement with the kernel after a mask change, touching one descriptor only; the kernel has never refused a call. |
| EPolling.EPoller.RemoveChannel | net/EPoller.cc:94-109 | The channel leaves the map and the interest list and is new again; the kernel has never refused a call. |
| EPolling.EPoller.EnableReading | net/Channel.h:27 | The channel is registered with reading on, writing as before; arriving data will fire its read callback; no other descriptor changes. |
| EPolling.EPoller.EnableWriting | net/Channel.h:28 | The channel is registered with writing on, reading as before; writability will fire its write callback; no other descriptor changes. |
| EPolling.EPoller.DisableWriting | net/Channel.h:29 | Writing off, reading as before, kernel in agreement: writability is not reported any more. |
| EPolling.EPoller.DisableAll | net/Channel.h:31 | The mask is empty and nothing is reported; the descriptor is registered afterwards exactly if it was not before. |
| EPolling.EPoller.Deregister | net/TcpConnection.cc:48-51 | `disableAll` then `removeChannel` removes the descriptor, whether or not it had been disabled already. |
| EPolling.EPoller.FillActiveChannels | net/EPoller.cc:111-124 | Every look-up of a reported channel succeeds; the active list is the report, in order, with its events. |
| EPolling.DisableAllAlternates | net/EPoller.cc:64-88 | After n calls of `disableAll` the descriptor is registered by parity of n and the first index. |
| Connections.BytesConserved | net/TcpConnection.cc:86-115 | Over every run, bytes accepted by the kernel followed by the output buffer are the messages given to sendInLoop, by whichever thread, in order; bytes consumed followed by the input buffer are the bytes received. |
| Connections.NothingFollowsShutWr | net/TcpConnection.cc:86-169 | In any run, with any number of queued messages, closed or not, SHUT_WR is the last call on the write side if and only if no queued message is reached with the write side shut and no backlog, and no writable event with it shut. |
| Connections.QueuedSendFollowsShutWr | net/TcpConnection.cc:59-70 | In any run that has not been closed, something follows SHUT_WR if and only if some queued message is reached when the connection is disconnecting with nothing left to write. |
| Connections.BeforeShutSuffices | net/TcpConnection.cc:117-123 | SHUT_WR is the last call on the write side of any run, closed or not, whose queued messages are all reached before it; so of any run without queued messages. |
| Connections.LateSend | net/TcpConnection.cc:65-67 | A run with a write after SHUT_WR: a message queued by another thread is reached after the shutdown. |
| Connections.LateSendAfterDestroy | net/TcpConnection.cc:44-52 | Another, in which the message is reached after the destruction. |
| Connections.GracefulHalfClose | net/TcpConnection.cc:72-80 | Until closed: writability is watched exactly while bytes are queued; disconnecting with none left means that the write side is shut, everything sent having been accepted; and with queued messages in time (none at all, for one) it is shut only then. |
| Connections.ShutdownCutsExactly | net/TcpConnection.cc:117-123 | In any run, `shutdown` cuts bytes off exactly if it finds a backlog that is not being drained, which happens on closed connections only. |
| Connections.ShutdownAfterCloseCuts | net/TcpConnection.cc:171-179 | Such a run exists: an unaccepted message, a close, a shutdown. |
| Connections.CompletionMeansDelivered | net/TcpConnection.cc:149-153 | The write-complete callback is queued at most once per call, and only when everything sent so far has been accepted. |
| Connections.BacklogDrains | net/TcpConnection.cc:141-169 | As many productive writable events as there are queued bytes empty the backlog and carry out a deferred half-close. |
| ConnectionHistory.MessagesConserved | net/TcpConnection.cc:59-169 | Over every run, bytes accepted by the kernel followed by the output buffer are the messages of its operations (sent while connected, or queued); bytes consumed followed by the input buffer are all that arrived. |
| ConnectionHistory.StateTells | net/TcpConnection.cc:35-80 | An established connection is disconnected once destroyed, else disconnecting once asked to shut down, else connected. |
| ConnectionHistory.EverythingIsOffered | net/TcpConnection.cc:86-169 | With nothing queued a message, and at a writable event the whole backlog, is offered to the kernel: nothing it would have accepted stays queued. |
| ConnectionHistory.LeftoverIsWatched | net/TcpConnection.cc:108-114 | If part of a message is not accepted, writability is watched, on a closed connection too. |
| ConnectionHistory.EverythingIsShown | net/TcpConnection.cc:125-131 | The message callback is shown all bytes left and gets as many as it takes. |
| ConnectionHistory.ReadsUntilClosed | net/TcpConnection.cc:125-179 | A connection reads from its establishment until it is closed, destroyed or at end of file, and not after. |
| ConnectionHistory.ClosingIsSilent | net/TcpConnection.cc:171-179 | Closing, destruction and end of file stop reading and writing. |
| ConnectionHistory.ShutdownTakesEffect | net/TcpConnection.cc:72-80 | Shutting down a connected connection makes it disconnecting at once; unless it has been closed, as many productive writable events as bytes queued deliver every message and shut the write side. |
| ConnectionHistory.CompletesExactly | net/TcpConnection.cc:86-153 | The write-complete callback is queued by exactly those operations that make a successful write after which everything given has been accepted. |
| Connections.TcpConnection.constructor | net/TcpConnection.cc:17-29 | A new connection is connecting, unregistered, with two empty buffers. |
| Connections.TcpConnection.ConnectEstablished | net/TcpConnection.cc:35-42 | Connected, reading, and registered with the multiplexer for a descriptor that was free. |
| Connections.TcpConnection.SendInLoop | net/TcpConnection.cc:86-115 | In any state the loop may find: direct write only with nothing queued; the unaccepted rest joins the output buffer and writability is watched. |
| Connections.TcpConnection.Send | net/TcpConnection.cc:59-70 | Sends when connected and does nothing otherwise. |
| Connections.TcpConnection.Shutdown | net/TcpConnection.cc:72-80 | Disconnecting; SHUT_WR now unless the backlog is still draining. |
| Connections.TcpConnection.HandleWrite | net/TcpConnection.cc:141-169 | The accepted prefix leaves the output buffer; when it empties, writing stops, completion is reported and a deferred half-close happens. |
| Connections.TcpConnection.HandleRead | net/TcpConnection.cc:125-139 | Received bytes reach the callback in order after what it left before; end of file closes; failure changes nothing. |
| Connections.TcpConnection.HandleClose | net/TcpConnection.cc:171-179 | All events off, state and buffers as they are; registered afterwards exactly if it was not before. |
| Connections.TcpConnection.ConnectDestroyed | net/TcpConnection.cc:44-52 | Disconnected and gone from the multiplexer, also after an earlier close; other descriptors unchanged. |
| Connections.Perform | net/TcpConnection.cc:35-179 | Every operation of a real connection is the step of the same name, so the run results hold of the object. |
| TimerModel.CancelIsFinal | base/TimerQueue.cc:97-112 | Once a live timer is cancelled, no later batch of any run executes it. |
| TimerModel.StaleIdIsHarmless | base/Timer.h:12-14 | An id whose timer is gone, or belongs to another queue, cancels nothing at any later point of any run, even if its address is in use again. |
| TimerModel.CancelHitsOnlyItsTarget | base/TimerQueue.cc:97-112 | Every other timer keeps its life, its time and its cancellation state. |
| TimerModel.OneShotRunsAtMostOnce | base/TimerQueue.cc:152-164 | A timer without interval is executed at most once in any run. |
| TimerModel.NoTimerForgotten | base/TimerQueue.cc:152-173 | A timer never cancelled stays in the queue for ever if it repeats, and otherwise until exactly one batch executes it. |
| TimerModel.NeverEarly | base/Timer.cc:7-14 | No timer runs before its expiration, and a repeating one not again before the batch time plus its interval in seconds. |
| TimerModel.AddTime | base/Timer.cc:7-14 | A time is put off by the whole microseconds of so many seconds. |
| TimerModel.AddedRunsWhenDue | base/TimerQueue.cc:131-150 | A new timer nobody cancels is executed if and only if some batch starts at its expiration or later. |
| TimerModel.RepeatsWhenDue | base/TimerQueue.cc:152-164 | A repeating timer in a batch that nobody cancels is executed again if and only if a later batch starts when its interval has passed. |
| TimerModel.BatchOutcome | base/TimerQueue.cc:114-164 | Of the earlier timers exactly those are left after a batch that no callback cancels and that are not due or repeat; due ones are filed for the batch time plus their interval. |
| TimerModel.BatchAdds | base/TimerQueue.cc:114-164 | Any other timer left after a batch was added, with that time and interval, by one of its callbacks. |
| TimerModel.LiveTimersDistinct | base/Timer.h:12-14 | At any point of any run no two live timers share an address or a sequence number. |
| TimerModel.ReleasedThenEnd | base/TimerQueue.cc:152-164 | Re-arming or deleting the expired timers one by one, in any order, amounts to ending the batch at once. |
| TimerModel.BatchMovesRun | base/TimerQueue.cc:114-129 | One call of handleRead, callbacks and their calls included, is a batch of a run, so the run results apply to it. |
| Timers.HowMuchTimeFromNow | base/TimerQueue.cc:29-39 | The relative time is normalised and never zero (which would disarm); armed with it, the timerfd fires at the expiration or 100 microseconds after arming, whichever is later. |
| Timers.LowerBound | base/TimerQueue.cc:137-139 | Everything before the bound precedes the key and nothing after it does. |
| Timers.DueCount | base/TimerQueue.cc:134-141 | The sentry key splits the index exactly at the timers whose expiration is not after `now`. |
| Timers.AgreeErase | base/TimerQueue.cc:102-107 | Deleting an active timer finds exactly one entry under its current expiration and leaves both indexes in agreement. |
| Timers.AgreeDropFirst | base/TimerQueue.cc:143-148 | The first entry's timer is active, and taking it out of both indexes keeps them in agreement. |
| Timers.BeganMeans | base/TimerQueue.cc:131-150 | Splitting the indexes at the sentry takes out exactly the timers that are due. |
| Timers.RestartedMeans | base/TimerQueue.cc:156-160 | A repeating timer that was not cancelled goes back into both indexes under its new expiration, with nothing else changed. |
| Timers.DeletedMeans | base/TimerQueue.cc:161-163 | Any other expired timer is freed once, and nothing refers to it any more. |
| Timers.BatchInDueOrder | base/TimerQueue.cc:124-126 | The batch is the due timers, each once, by expiration and then address. |
| Timers.InsertCoverage | base/TimerQueue.cc:85-91 | Arming only for a new earliest timer keeps the timerfd early enough for all: it fires no later than any timer is due, or 100 microseconds after arming. |
| Timers.EraseCoverage | base/TimerQueue.cc:97-112 | Cancelling never needs to re-arm. |
| Timers.TimerQueue.Insert | base/TimerQueue.cc:175-194 | The timer enters both indexes (neither insertion meets a duplicate); reports whether it is earlier than all others. |
| Timers.TimerQueue.ResetTimerfd | base/TimerQueue.cc:41-50 | Whatever the clock reads, the timerfd is armed for the expiration, or for 100 microseconds later if that is past. |
| Timers.TimerQueue.ReadTimerfd | base/TimerQueue.cc:52-59 | A timerfd that has fired is disarmed; one armed anew since the poll stays armed. |
| Timers.TimerQueue.AddTimer | base/TimerQueue.cc:79-91 | A fresh id; the queue gains that timer and nothing else; the timerfd is armed for it exactly if it is the new earliest, and stays early enough. |
| Timers.TimerQueue.CancelInLoop | base/TimerQueue.cc:97-112 | A pending timer is freed, a running one noted, any other id ignored; the timerfd stays early enough. |
| Timers.TimerQueue.GetExpired | base/TimerQueue.cc:131-150 | The due prefix leaves both indexes, which stay in agreement, as does the batch. |
| Timers.TimerQueue.Reset | base/TimerQueue.cc:152-173 | The batch is over: rearmed or freed; and the timerfd is armed exactly for the earliest timer, or as soon as it can; for an invalid timestamp it is early enough already. |
| Timers.TimerQueue.RunExpired | base/TimerQueue.cc:124-126 | The batch is run in order, and every timer of it is alive when its callback is called, whatever earlier callbacks did. |
| Timers.TimerQueue.HandleRead | base/TimerQueue.cc:114-129 | Refines the set specification for arbitrary callbacks: runs exactly the due timers, once each, in order; the queue is then the rest, plus additions, minus cancellations, plus the repeating ones not cancelled, filed for the batch time plus their interval; and the timerfd is armed for the earliest or has fired meanwhile. |
| Timers.Perform | base/TimerQueue.cc:79-129 | Any event on a real queue (a user call, the kernel firing, handleRead) is a piece of a run, and between events the timerfd has fired or is early enough. |
| LoopModel.FunctorsConserved | net/EventLoop.cc:110-122 | In every interleaving the functors handed over by any thread are those executed, one for every call, then the rest of the batch, then the pending ones. |
| LoopModel.RunTells | net/EventLoop.cc:60-179 | What was queued, whether quit is set, whether the eventfd is readable and who still owes a wakeup follow from the steps made. |
| LoopModel.NoLostWakeup | net/EventLoop.cc:60-85 | If the loop can block in poll with work queued or after being told to quit, some thread has pushed or told it so without its wakeup yet, and that wakeup ends the blocking. |
| LoopModel.IterationExecutesAllQueued | net/EventLoop.cc:66-73 | Everything queued by the time of the poll has been executed at the next test of the loop condition. |
| LoopModel.BatchIsFixed | net/EventLoop.cc:167-179 | A batch keeps its length and order however often its functors queue themselves. |
| EventLoops.EventLoop.QueueLocally | net/EventLoop.cc:110-122 | The functor is queued; inside doPendingFunctors the loop thread wakes itself, so it owes no wakeup. |
| EventLoops.EventLoop.Wakeup | net/EventLoop.cc:124-130 | The eventfd counter is raised (or already full), and is positive. |
| EventLoops.EventLoop.Foreign | net/EventLoop.cc:79-130 | A step of another thread: the functor it hands over is the one queued, and it owes a wakeup until that is made; anything impossible changes nothing. |
| EventLoops.EventLoop.UserCode | net/EventLoop.cc:69-77 | A handler or functor makes just the calls it means to, in order, whatever other threads do in between. |
| EventLoops.EventLoop.HandleRead | net/EventLoop.cc:159-165 | The eventfd counter is reset. |
| EventLoops.EventLoop.RunBatch | net/EventLoop.cc:175-177 | Executes exactly the local batch, in order, whatever is queued meanwhile. |
| EventLoops.EventLoop.DoPendingFunctors | net/EventLoop.cc:167-179 | Everything queued before the call has been executed at its end, with other threads running between any two steps. |
| EventLoops.EventLoop.RunLoop | net/EventLoop.cc:60-77 | The loop only takes further steps of the protocol, stops before its last round only because it was told to quit, and after one full round has executed everything queued before. |
| DensePolling.Decoded | net/Poller.cc:79-83 | Recovers the descriptor from an ignored slot. |
| DensePolling.ReadyPrefix | net/Poller.cc:89-102 | Scanning a prefix finds a prefix of the ready slots, so stopping early drops only later ones. |
| DensePolling.SwapRemovedKeepsTheRest | net/Poller.cc:75-86 | Swap-with-last removal loses exactly the slot it was asked to drop. |
| DensePolling.DenseUpdate | net/Poller.cc:47-61 | Refreshing or muting a slot keeps descriptors and slots in bijection. |
| DensePolling.DenseSwap | net/Poller.cc:79-84 | Swapping two slots with their indexes keeps descriptors and slots in bijection, every descriptor its slot, and all others their place. |
| DensePolling.DensePop | net/Poller.cc:85 | Dropping the last slot with its descriptor keeps the rest in bijection. |
| DensePolling.WatchedUntilFirstDisabled | net/Poller.cc:53-60 | A descriptor is watched if and only if it has not been disabled since its registration; its slot shows its latest mask. |
| DensePolling.ReenabledStaysUnwatched | net/Poller.cc:57-60 | A channel disabled and enabled again has its mask in the slot but is ignored by poll. |
| DensePolling.Poller.UpdateChannel | net/Poller.cc:35-62 | A new channel gets the last slot, an old one its own slot refreshed; index, map and slots agree. |
| DensePolling.Poller.RemoveChannel | net/Poller.cc:64-87 | The last slot takes the freed place and its channel is told; index, map and slots agree. |
| DensePolling.Poller.FillActiveChannels | net/Poller.cc:89-102 | Yields the channels of the first `numEvents` ready slots, in slot order, each once with its events; no look-up fails. |
| ConnectorModel.SocketsConserved | net/Connector.cc:57-173 | Every socket ever created has been closed once, or handed over once, and not both; or it is the one socket of the registered channel while connecting, and has been neither. |
| ConnectorModel.FateIsFinal | net/Connector.cc:145-159 | A socket closed or handed over is never closed or handed over again, in any later run; and a socket keeps its descriptor. |
| ConnectorModel.QuietAfterStop | net/Connector.cc:50-53 | From `stop` on, no socket is created and none handed over until the next start or restart, even if the retry timer was already in the running batch. |
| ConnectorModel.NextAttemptIsClear | net/Connector.cc:97-101 | Between attempts the old channel is gone if and only if no reset is queued; a wanted retry may go on to a new channel exactly then. |
| ConnectorModel.TimerBeforeReset | net/Connector.cc:161-173 | A run in which a wanted retry is due while the old channel is still there, so that the assertion on it would fail. |
| ConnectorModel.DelayDoubles | net/Connector.cc:42-48 | The n-th retry since the last restart, counted from 0, is scheduled min(500 * 2^n, 30000) ms ahead. |
| ConnectorModel.NeverForgotten | net/Connector.cc:57-159 | A connection that is wanted is there, or being attempted, or has a retry outstanding, exactly unless the last attempt was hopeless. |
| ConnectorModel.OneSocketPerAttempt | net/Connector.cc:57-95 | A wanted attempt makes one new socket, and is then connecting exactly if connect(2) is in progress; no other event makes any. |
| Connectors.Connector.Start | net/Connector.cc:26-40 | From idle: one attempt on one new socket, which is registered for writing by a new channel, or closed once, with a retry exactly if it may work later. |
| Connectors.Connector.Restart | net/Connector.cc:42-48 | Back-off starts over, then one attempt, likewise. |
| Connectors.Connector.Stop | net/Connector.cc:50-53 | No further attempt is wanted, and the retry timer is cancelled unless its batch is already running. |
| Connectors.Connector.OnRetryTimer | net/Connector.cc:152-153 | The timer makes one more attempt if it is still wanted; any new channel is registered for writing. |
| Connectors.Connector.WatchForConnection | net/Connector.cc:97-133 | A new channel, the only one for its descriptor, is registered for writing. |
| Connectors.Connector.Retry | net/Connector.cc:145-159 | The descriptor of an undisposed socket is closed, once, and a retry is scheduled after the current delay exactly if the connection is still wanted. |
| Connectors.Connector.RemoveAndResetChannel | net/Connector.cc:161-168 | The descriptor of the channel's socket has left the map and the interest list; the channel object awaits its reset. |
| Connectors.Connector.ResetChannelNow | net/Connector.cc:170-173 | The channel object goes. |
| Connectors.Connector.HandleWrite | net/Connector.cc:102-130 | Hands a descriptor over exactly if its socket is connected and still wanted: the descriptor of the socket watched, neither closed nor handed over before, and now free of any channel. |
| Connectors.Connector.HandleError | net/Connector.cc:135-143 | The attempt is given up, the descriptor of its socket closed once, and a retry scheduled exactly if still wanted. |
| Connectors.Connector.HandleEvent | net/Channel.cc:21-45 | An event that reports both an error and writability disposes of the socket once, as an error. |
| Connectors.Perform | net/Connector.cc:26-173 | Every event of a real connector is the step of the same name; it hands over one undisposed socket's descriptor or none. |
| Connectors.TcpClient.NewConnection | net/TcpClient.cc:77-96 | A fresh, established connection registered for a descriptor that was free. |
| Connectors.TcpClient.OnConnectorEvent | net/TcpClient.cc:77-96 | On hand-over the connection's channel is the one registered for the descriptor and the connector's is not, and there was no connection before; otherwise nothing changes for the client. |
| Connectors.TcpClient.Connect | net/TcpClient.cc:52-56 | One attempt from idle; a client with a connection still has a connector that is done. |
| Connectors.TcpClient.Stop | net/TcpClient.cc:68-71 | No further attempt is wanted; the connection stays. |
| Connectors.TcpClient.RemoveConnection | net/TcpClient.cc:98-114 | The connection is let go, its destruction queued, and the connector, which is connected, restarted exactly if retrying is on. |

## Left out

- System calls: sockets, epoll, poll, timerfd, eventfd, read and write appear only as contracts (a prefix accepted, a failure, a counter, an interest list).
- Addresses, socket options, logging, `Acceptor`, `TcpServer`, `EventLoopThread` and `EventLoopThreadPool`: start-up and map upkeep.
- Integer widths: sizes, timestamps and sequence numbers are unbounded integers; only the eventfd counter and the highest address have the source's bounds.
- `Buffer::shrink` moves the bytes without resetting the indices and is not modelled; `retrieveUntil` is `retrieve` of a pointer difference.
- Buffers.Buffer.MakeSpace: does not model the spare capacity a vector may keep when it is resized.
- Destructors, and lifetimes across threads.
- `shutdown`, `addTimer` and `cancel` from other threads: they are queued functors, and the event loop part covers those.
- Connections.TcpConnection.SendInLoop: assumes that no other channel has the descriptor of a connection that has been disconnected, which stays open until the connection is destroyed.
- Functors queued by the owner thread, and `quit`, before `loop()` starts: the first may wait for the poll timeout, the second is overwritten.
- EventLoops.EventLoop.RunLoop: runs any finite number of rounds, since `loop()` itself need not end.
- EventLoops.EventLoop.Iterate: models all handlers of a round as user code before and after the wakeup handler, not as a list of channels.
- Connections.TcpConnection.HandleClose: does not model the close callback itself; in `TcpClient` it is `Connectors.TcpClient.RemoveConnection`.
- Connectors.Connector.OnRetryTimer: assumes that a wanted retry that gets as far as a new channel comes after the queued reset, as the source asserts; it does unless a handler blocks for the whole delay.
- Connectors.Connector.Start: assumes that no retry is outstanding, since the source would then run two attempts at once.
- Timers.TimerQueue.HandleRead: assumes a positive clock reading; expirations may be any integer.
- Growth of the epoll event list: it only changes how many events one poll reports.
- `TcpClient::retry` has no body; connection names and the callbacks copied into a connection are not modelled.
