/** What a timer queue means (base/TimerQueue.cc, base/Timer.h, base/Timer.cc), without its indexes.

    A queue is a set of pending timers, named by address and sequence number, plus the batch whose
    callbacks are running. A run is any interleaving of user calls and batches; calls made by the
    callbacks themselves are the user moves between `Begin` and `End`. */
module TimerModel {
  import opened Common

  datatype TimerId = TimerId(addr: nat, sequence: int)

  const UINTPTR_MAX: nat := 0xFFFF_FFFF_FFFF_FFFF

  /** No object lives at the highest address. */
  type Addr = a: nat | a < UINTPTR_MAX

  datatype Record = Record(when: int, interval: real) {
    predicate Repeats() {
      interval > 0.0
    }
  }

  datatype Queue = Queue(
    pending: map<TimerId, Record>,
    running: map<TimerId, Record>,
    cancelled: set<TimerId>,
    created: nat,
    batch: Option<int>)

  /** `Elsewhere` is the creation of a timer for another queue, which takes a sequence number: one
      counter serves all queues. */
  datatype UserOp = Add(addr: Addr, when: int, interval: real) | Cancel(id: TimerId) | Elsewhere
  datatype Move = User(op: UserOp) | Begin(now: int) | End

  const MICROS_PER_SECOND := 1000000

  /** muduo::addTime: seconds to whole microseconds. */
  function AddTime(t: int, seconds: real): (r: int)
    requires seconds >= 0.0
    ensures t <= r
    ensures (r - t) as real <= seconds * 1000000.0 < (r - t + 1) as real
  {
    t + (seconds * 1000000.0).Floor
  }

  ghost predicate Live(q: Queue, id: TimerId) {
    id in q.pending || id in q.running
  }

  /** The allocator hands out no address that a timer still occupies. */
  ghost predicate Occupied(q: Queue, addr: nat) {
    || (exists id {:trigger q.pending[id]} | id in q.pending :: id.addr == addr)
    || (exists id {:trigger q.running[id]} | id in q.running :: id.addr == addr)
  }

  ghost function Due(q: Queue, now: int): map<TimerId, Record> {
    map id | id in q.pending && q.pending[id].when <= now :: q.pending[id]
  }

  /** Addresses that are taken cannot be allocated: such an Add cannot happen and changes nothing. */
  ghost function UserStep(q: Queue, op: UserOp): Queue {
    match op
    case Add(addr, when, interval) =>
      if Occupied(q, addr) then q else
      q.(created := q.created + 1,
         pending := q.pending[TimerId(addr, q.created + 1) := Record(when, interval)])
    case Cancel(id) =>
      if id in q.pending then q.(pending := q.pending - {id})
      else if id in q.running then q.(cancelled := q.cancelled + {id})
      else q
    case Elsewhere => q.(created := q.created + 1)
  }

  ghost function Rearmed(q: Queue, now: int): map<TimerId, Record> {
    map id | id in q.running && q.running[id].Repeats() && id !in q.cancelled ::
      q.running[id].(when := AddTime(now, q.running[id].interval))
  }

  ghost predicate Legal(q: Queue, m: Move) {
    match m
    case User(_) => true
    case Begin(_) => q.batch.None?
    case End => q.batch.Some?
  }

  ghost function Step(q: Queue, m: Move): Queue
    requires Legal(q, m)
  {
    match m
    case User(op) => UserStep(q, op)
    case Begin(now) =>
      q.(pending := q.pending - Due(q, now).Keys, running := Due(q, now), cancelled := {}, batch := Some(now))
    case End =>
      q.(pending := q.pending + Rearmed(q, q.batch.value), running := map[], cancelled := {}, batch := None)
  }

  /** One executed timer leaves the batch: rearmed if it repeats and was not cancelled, else deleted. */
  ghost function ReleaseStep(q: Queue, id: TimerId): Queue
    requires id in q.running && q.batch.Some?
  {
    var r := q.running[id];
    q.(running := q.running - {id},
       cancelled := q.cancelled - {id},
       pending := if r.Repeats() && id !in q.cancelled
                  then q.pending[id := r.(when := AddTime(q.batch.value, r.interval))] else q.pending)
  }

  /** `End` releases the batch one timer at a time, in any order. */
  lemma ReleasedThenEnd(q: Queue, id: TimerId)
    requires id in q.running && q.batch.Some? && q.pending.Keys !! q.running.Keys
    ensures Step(ReleaseStep(q, id), End) == Step(q, End)
  {
    var a, b := Step(ReleaseStep(q, id), End).pending, Step(q, End).pending;
    assert a.Keys == b.Keys;
    assert forall i | i in a :: a[i] == b[i];
  }

  /** A callback's own calls, one after the other; and the callbacks of the first `n` timers. */
  ghost function UserSteps(q: Queue, ops: seq<UserOp>): (r: Queue)
    ensures r.batch == q.batch
    decreases |ops|
  {
    if ops == [] then q else UserSteps(UserStep(q, ops[0]), ops[1..])
  }

  ghost function Callbacks(q: Queue, scripts: nat -> seq<UserOp>, n: nat): (r: Queue)
    ensures r.batch == q.batch
  {
    if n == 0 then q else UserSteps(Callbacks(q, scripts, n - 1), scripts(n - 1))
  }

  ghost predicate LegalRun(q: Queue, moves: seq<Move>)
    decreases |moves|
  {
    moves == [] || (Legal(q, moves[0]) && LegalRun(Step(q, moves[0]), moves[1..]))
  }

  ghost function Run(q: Queue, moves: seq<Move>): Queue
    requires LegalRun(q, moves)
    decreases |moves|
  {
    if moves == [] then q else Run(Step(q, moves[0]), moves[1..])
  }

  lemma {:induction false} RunConcat(q: Queue, first: seq<Move>, second: seq<Move>)
    requires LegalRun(q, first) && LegalRun(Run(q, first), second)
    ensures LegalRun(q, first + second) && Run(q, first + second) == Run(Run(q, first), second)
    decreases |first|
  {
    if first == [] {
      assert first + second == second;
    } else {
      assert (first + second)[1..] == first[1..] + second;
      RunConcat(Step(q, first[0]), first[1..], second);
    }
  }

  /** A callback's calls as moves; and a whole batch, the calls of its first `n` callbacks included. */
  ghost function UserMoves(ops: seq<UserOp>): seq<Move> {
    seq(|ops|, i requires 0 <= i < |ops| => User(ops[i]))
  }

  ghost function CallbackMoves(scripts: nat -> seq<UserOp>, n: nat): seq<Move> {
    if n == 0 then [] else CallbackMoves(scripts, n - 1) + UserMoves(scripts(n - 1))
  }

  ghost function BatchMoves(now: int, scripts: nat -> seq<UserOp>, n: nat): seq<Move> {
    [Begin(now)] + CallbackMoves(scripts, n) + [End]
  }

  lemma {:induction false} UserMovesRun(q: Queue, ops: seq<UserOp>)
    ensures LegalRun(q, UserMoves(ops)) && Run(q, UserMoves(ops)) == UserSteps(q, ops)
    decreases |ops|
  {
    if ops != [] {
      assert UserMoves(ops)[1..] == UserMoves(ops[1..]);
      UserMovesRun(UserStep(q, ops[0]), ops[1..]);
    }
  }

  lemma {:induction false} CallbackMovesRun(q: Queue, scripts: nat -> seq<UserOp>, n: nat)
    ensures LegalRun(q, CallbackMoves(scripts, n)) && Run(q, CallbackMoves(scripts, n)) == Callbacks(q, scripts, n)
  {
    if n > 0 {
      CallbackMovesRun(q, scripts, n - 1);
      UserMovesRun(Callbacks(q, scripts, n - 1), scripts(n - 1));
      RunConcat(q, CallbackMoves(scripts, n - 1), UserMoves(scripts(n - 1)));
    }
  }

  lemma OneUserMove(q: Queue, op: UserOp)
    ensures LegalRun(q, [User(op)]) && Run(q, [User(op)]) == UserStep(q, op)
  {
    assert [User(op)][1..] == [] && LegalRun(UserStep(q, op), []);
  }

  /** One call of handleRead is a batch of a run. */
  lemma BatchMovesRun(q: Queue, now: int, scripts: nat -> seq<UserOp>, n: nat)
    requires q.batch.None?
    ensures LegalRun(q, BatchMoves(now, scripts, n))
    ensures Run(q, BatchMoves(now, scripts, n)) == Step(Callbacks(Step(q, Begin(now)), scripts, n), End)
  {
    var begun := Step(q, Begin(now));
    var called := Callbacks(begun, scripts, n);
    CallbackMovesRun(begun, scripts, n);
    assert [End][1..] == [] && LegalRun(Step(called, End), []);
    assert LegalRun(called, [End]) && Run(called, [End]) == Step(called, End);
    RunConcat(begun, CallbackMoves(scripts, n), [End]);
    var rest := CallbackMoves(scripts, n) + [End];
    assert BatchMoves(now, scripts, n)[0] == Begin(now) && BatchMoves(now, scripts, n)[1..] == rest;
  }

  /** How many batches of the run execute the callback of `id`. */
  ghost function Executions(q: Queue, moves: seq<Move>, id: TimerId): nat
    requires LegalRun(q, moves)
    decreases |moves|
  {
    if moves == [] then 0 else
    var here := if moves[0].Begin? && id in Due(q, moves[0].now) then 1 else 0;
    here + Executions(Step(q, moves[0]), moves[1..], id)
  }

  const EMPTY_QUEUE := Queue(map[], map[], {}, 0, None)

  // ----- What every move keeps -----

  ghost function Ids(q: Queue): set<TimerId> {
    q.pending.Keys + q.running.Keys
  }

  ghost predicate Inv(q: Queue) {
    && q.pending.Keys !! q.running.Keys
    && (q.batch.None? ==> q.running == map[])
    && (forall id | id in Ids(q) :: 1 <= id.sequence <= q.created)
  }

  lemma StepKeepsInv(q: Queue, m: Move)
    requires Inv(q) && Legal(q, m)
    ensures Inv(Step(q, m))
  {
  }

  lemma {:induction false} RunKeepsInv(q: Queue, moves: seq<Move>)
    requires Inv(q) && LegalRun(q, moves)
    ensures Inv(Run(q, moves))
    decreases |moves|
  {
    if moves != [] {
      StepKeepsInv(q, moves[0]);
      RunKeepsInv(Step(q, moves[0]), moves[1..]);
    }
  }

  /** Every live timer has an address and a sequence number of its own. */
  ghost predicate Distinct(ids: set<TimerId>) {
    forall id, id' | id in ids && id' in ids && (id.addr == id'.addr || id.sequence == id'.sequence) :: id == id'
  }

  lemma {:induction false} LiveTimersDistinct(q: Queue, moves: seq<Move>)
    requires Inv(q) && Distinct(Ids(q)) && LegalRun(q, moves)
    ensures Distinct(Ids(Run(q, moves)))
    decreases |moves|
  {
    if moves != [] {
      var r := Step(q, moves[0]);
      StepKeepsInv(q, moves[0]);
      match moves[0] {
        case User(Add(addr, _, _)) => assert Ids(r) <= Ids(q) + {TimerId(addr, q.created + 1)};
        case _ => assert Ids(r) <= Ids(q);
      }
      LiveTimersDistinct(r, moves[1..]);
    }
  }

  /** Not pending, not to be rearmed, and too old to be created anew. */
  ghost predicate Finished(q: Queue, id: TimerId) {
    && id.sequence <= q.created
    && id !in q.pending
    && (id in q.running ==> id in q.cancelled || !q.running[id].Repeats())
  }

  lemma {:induction false} FinishedForever(q: Queue, moves: seq<Move>, id: TimerId)
    requires LegalRun(q, moves) && Finished(q, id)
    ensures Finished(Run(q, moves), id) && Executions(q, moves, id) == 0
    decreases |moves|
  {
    if moves != [] {
      assert Finished(Step(q, moves[0]), id);
      FinishedForever(Step(q, moves[0]), moves[1..], id);
    }
  }

  /** An id the queue has issued whose timer no longer exists. */
  ghost predicate Gone(q: Queue, id: TimerId) {
    id.sequence <= q.created && !Live(q, id)
  }

  lemma {:induction false} GoneForever(q: Queue, moves: seq<Move>, id: TimerId)
    requires LegalRun(q, moves) && Gone(q, id)
    ensures Gone(Run(q, moves), id)
    decreases |moves|
  {
    if moves != [] {
      assert Gone(Step(q, moves[0]), id);
      GoneForever(Step(q, moves[0]), moves[1..], id);
    }
  }

  // ----- Results -----

  /** Cancellation lasts: once a live timer is cancelled, wherever in a batch that happens, no later
      batch of any run executes it (the current batch, already under way, may). */
  lemma CancelIsFinal(q: Queue, id: TimerId, later: seq<Move>)
    requires Inv(q) && Live(q, id)
    requires LegalRun(UserStep(q, Cancel(id)), later)
    ensures Executions(UserStep(q, Cancel(id)), later, id) == 0
    ensures id !in Run(UserStep(q, Cancel(id)), later).pending
  {
    FinishedForever(UserStep(q, Cancel(id)), later, id);
  }

  /** A stale id is harmless for ever: cancelling it at any later point of any run changes nothing,
      whatever timer has been allocated at its address since. */
  lemma StaleIdIsHarmless(q: Queue, id: TimerId, later: seq<Move>)
    requires LegalRun(q, later) && Gone(q, id)
    ensures UserStep(Run(q, later), Cancel(id)) == Run(q, later)
  {
    GoneForever(q, later, id);
  }

  /** Cancelling one timer leaves every other timer, and everything it will ever do, in place. */
  lemma CancelHitsOnlyItsTarget(q: Queue, id: TimerId, other: TimerId)
    requires Inv(q) && other != id
    ensures var r := UserStep(q, Cancel(id));
            && (Live(r, other) <==> Live(q, other))
            && (other in q.pending ==> r.pending[other] == q.pending[other])
            && (other in q.running ==> r.running[other] == q.running[other])
            && (other in r.cancelled <==> other in q.cancelled)
  {
  }

  /** A one-shot timer runs at most once, ever. */
  lemma {:induction false} OneShotRunsAtMostOnce(q: Queue, moves: seq<Move>, id: TimerId)
    requires LegalRun(q, moves) && Inv(q)
    requires id in q.pending && q.pending[id].interval <= 0.0
    ensures Executions(q, moves, id) <= 1
    decreases |moves|
  {
    if moves != [] {
      var r := Step(q, moves[0]);
      StepKeepsInv(q, moves[0]);
      if id in r.pending {
        assert moves[0].Begin? ==> id !in Due(q, moves[0].now);
        assert r.pending[id] == q.pending[id];
        OneShotRunsAtMostOnce(r, moves[1..], id);
      } else {
        assert Finished(r, id);
        FinishedForever(r, moves[1..], id);
      }
    }
  }

  /** A live timer nobody has asked to cancel. */
  ghost predicate Wanted(q: Queue, id: TimerId, interval: real) {
    || (id in q.pending && q.pending[id].interval == interval)
    || (id in q.running && q.running[id].interval == interval && id !in q.cancelled)
  }

  /** No timer is forgotten: one that is never cancelled stays in the queue for ever if it repeats,
      and otherwise until a batch executes it. */
  lemma {:induction false} NoTimerForgotten(q: Queue, moves: seq<Move>, id: TimerId, interval: real)
    requires LegalRun(q, moves) && Inv(q) && Wanted(q, id, interval)
    requires User(Cancel(id)) !in moves
    ensures interval > 0.0 ==> Wanted(Run(q, moves), id, interval)
    ensures id in q.pending ==> Wanted(Run(q, moves), id, interval) || Executions(q, moves, id) == 1
    decreases |moves|
  {
    if moves != [] {
      var r := Step(q, moves[0]);
      StepKeepsInv(q, moves[0]);
      assert moves[0] in moves && moves[0] != User(Cancel(id));
      if id in q.pending && id in r.running && interval <= 0.0 {
        FinishedForever(r, moves[1..], id);
      } else if Wanted(r, id, interval) {
        NoTimerForgotten(r, moves[1..], id, interval);
      }
    }
  }

  // ----- Periods -----

  ghost predicate NotBefore(q: Queue, id: TimerId, t: int, interval: real) {
    && id.sequence <= q.created
    && (id in q.pending ==> t <= q.pending[id].when && q.pending[id].interval == interval)
    && (id in q.running ==> q.running[id].interval == interval && q.batch.Some?
                            && (interval >= 0.0 ==> t <= AddTime(q.batch.value, interval)))
  }

  /** Every batch of the run that executes `id` starts at `t` or later. */
  ghost predicate ExecutedOnlyFrom(q: Queue, moves: seq<Move>, id: TimerId, t: int)
    requires LegalRun(q, moves)
    decreases |moves|
  {
    moves != [] ==>
      && (moves[0].Begin? && id in Due(q, moves[0].now) ==> t <= moves[0].now)
      && ExecutedOnlyFrom(Step(q, moves[0]), moves[1..], id, t)
  }

  lemma {:induction false} NotBeforeRun(q: Queue, moves: seq<Move>, id: TimerId, t: int, interval: real)
    requires LegalRun(q, moves) && Inv(q) && NotBefore(q, id, t, interval)
    ensures ExecutedOnlyFrom(q, moves, id, t)
    decreases |moves|
  {
    if moves != [] {
      StepKeepsInv(q, moves[0]);
      assert NotBefore(Step(q, moves[0]), id, t, interval);
      NotBeforeRun(Step(q, moves[0]), moves[1..], id, t, interval);
    }
  }

  /** A timer is never early: it does not run before its expiration, and a repeating timer that has
      just been picked up by a batch at `now` does not run again before any point in time that is not
      later than `now` plus its interval, in seconds. */
  lemma NeverEarly(q: Queue, moves: seq<Move>, id: TimerId, t: int)
    requires LegalRun(q, moves) && Inv(q)
    ensures id in q.pending ==> ExecutedOnlyFrom(q, moves, id, q.pending[id].when)
    ensures id in q.running && q.running[id].interval > 0.0 && q.batch.Some?
            && (t - q.batch.value) as real <= q.running[id].interval * 1000000.0 ==>
      ExecutedOnlyFrom(q, moves, id, t)
  {
    if id in q.pending {
      NotBeforeRun(q, moves, id, q.pending[id].when, q.pending[id].interval);
    } else if id in q.running && q.running[id].interval > 0.0 && q.batch.Some?
              && (t - q.batch.value) as real <= q.running[id].interval * 1000000.0 {
      NotBeforeRun(q, moves, id, t, q.running[id].interval);
    }
  }

  // ----- Never late either -----

  /** Some batch of the run starts at `t` or later. */
  ghost predicate BatchFrom(moves: seq<Move>, t: int) {
    exists m | m in moves :: m.Begin? && t <= m.now
  }

  lemma BatchFromSplit(moves: seq<Move>, t: int)
    requires moves != []
    ensures BatchFrom(moves, t) <==> (moves[0].Begin? && t <= moves[0].now) || BatchFrom(moves[1..], t)
  {
    assert moves == [moves[0]] + moves[1..];
    assert moves[0] in moves;
  }

  lemma {:induction false} PendingRunsWhenDue(q: Queue, moves: seq<Move>, id: TimerId)
    requires LegalRun(q, moves) && Inv(q) && id in q.pending && User(Cancel(id)) !in moves
    ensures Executions(q, moves, id) > 0 <==> BatchFrom(moves, q.pending[id].when)
    decreases |moves|
  {
    if moves != [] {
      var r := Step(q, moves[0]);
      StepKeepsInv(q, moves[0]);
      BatchFromSplit(moves, q.pending[id].when);
      assert moves[0] in moves && moves[0] != User(Cancel(id));
      if id in r.pending {
        assert r.pending[id] == q.pending[id];
        PendingRunsWhenDue(r, moves[1..], id);
      }
    }
  }

  /** A new timer that nobody cancels is executed if and only if some batch starts at its expiration
      or later. */
  lemma AddedRunsWhenDue(q: Queue, addr: Addr, when: int, interval: real, moves: seq<Move>)
    requires Inv(q) && !Occupied(q, addr) && LegalRun(UserStep(q, Add(addr, when, interval)), moves)
    requires User(Cancel(TimerId(addr, q.created + 1))) !in moves
    ensures var r := UserStep(q, Add(addr, when, interval)); var id := TimerId(addr, q.created + 1);
            Executions(r, moves, id) > 0 <==> BatchFrom(moves, when)
  {
    StepKeepsInv(q, User(Add(addr, when, interval)));
    PendingRunsWhenDue(UserStep(q, Add(addr, when, interval)), moves, TimerId(addr, q.created + 1));
  }

  /** `t` is `now` plus the interval, in seconds, down to the microsecond. */
  ghost predicate OneIntervalOn(now: int, interval: real, t: int) {
    (t - now) as real <= interval * 1000000.0 < (t - now + 1) as real
  }

  /** A repeating timer in a batch at `now` that nobody cancels is executed again if and only if some
      later batch starts when its interval has passed. */
  lemma {:induction false} RepeatsWhenDue(q: Queue, moves: seq<Move>, id: TimerId, t: int)
    requires LegalRun(q, moves) && Inv(q) && User(Cancel(id)) !in moves
    requires q.batch.Some? && id in q.running && id !in q.cancelled && q.running[id].interval > 0.0
    requires OneIntervalOn(q.batch.value, q.running[id].interval, t)
    ensures Executions(q, moves, id) > 0 <==> BatchFrom(moves, t)
    decreases |moves|
  {
    if moves != [] {
      var r := Step(q, moves[0]);
      StepKeepsInv(q, moves[0]);
      BatchFromSplit(moves, t);
      assert moves[0] in moves && moves[0] != User(Cancel(id));
      if moves[0].End? {
        assert r.pending[id].when == t;
        PendingRunsWhenDue(r, moves[1..], id);
      } else {
        RepeatsWhenDue(r, moves[1..], id, t);
      }
    }
  }

  // ----- What a batch leaves behind -----

  /** One of the first `n` callbacks cancels the timer. */
  ghost predicate CancelledBy(scripts: nat -> seq<UserOp>, n: nat, id: TimerId) {
    exists i | 0 <= i < n :: Cancel(id) in scripts(i)
  }

  lemma {:induction false} UserStepsKeep(q: Queue, ops: seq<UserOp>, id: TimerId)
    requires Inv(q) && id.sequence <= q.created
    ensures var r := UserSteps(q, ops);
            && Inv(r) && r.running == q.running && q.created <= r.created
            && (id in r.pending <==> id in q.pending && Cancel(id) !in ops)
            && (id in r.pending ==> r.pending[id] == q.pending[id])
            && (id in r.cancelled <==> id in q.cancelled || (id in q.running && Cancel(id) in ops))
    decreases |ops|
  {
    if ops != [] {
      var next := UserStep(q, ops[0]);
      StepKeepsInv(q, User(ops[0]));
      assert ops == [ops[0]] + ops[1..];
      UserStepsKeep(next, ops[1..], id);
    }
  }

  lemma {:induction false} CallbacksKeep(q: Queue, scripts: nat -> seq<UserOp>, n: nat, id: TimerId)
    requires Inv(q) && id.sequence <= q.created
    ensures var r := Callbacks(q, scripts, n);
            && Inv(r) && r.running == q.running && q.created <= r.created
            && (id in r.pending <==> id in q.pending && !CancelledBy(scripts, n, id))
            && (id in r.pending ==> r.pending[id] == q.pending[id])
            && (id in r.cancelled <==> id in q.cancelled || (id in q.running && CancelledBy(scripts, n, id)))
  {
    if n > 0 {
      CallbacksKeep(q, scripts, n - 1, id);
      UserStepsKeep(Callbacks(q, scripts, n - 1), scripts(n - 1), id);
      assert CancelledBy(scripts, n, id) <==> CancelledBy(scripts, n - 1, id) || Cancel(id) in scripts(n - 1);
    }
  }

  /** Of the timers there were before a batch at `now`, exactly those stay that no callback cancels and
      that are not due or repeat; and the due ones come back when their interval has passed. */
  ghost predicate BatchLeaves(q: Queue, now: int, scripts: nat -> seq<UserOp>, n: nat, r: Queue) {
    forall id: TimerId {:trigger id in r.pending} {:trigger id in q.pending} | id.sequence <= q.created ::
      && (id in r.pending <==>
            && id in q.pending && !CancelledBy(scripts, n, id)
            && (q.pending[id].when > now || q.pending[id].interval > 0.0))
      && (id in r.pending ==>
            && r.pending[id].interval == q.pending[id].interval
            && if q.pending[id].when > now then r.pending[id].when == q.pending[id].when
               else OneIntervalOn(now, q.pending[id].interval, r.pending[id].when))
  }

  lemma BatchOutcome(q: Queue, now: int, scripts: nat -> seq<UserOp>, n: nat)
    requires Inv(q) && q.batch.None?
    ensures BatchLeaves(q, now, scripts, n, Step(Callbacks(Step(q, Begin(now)), scripts, n), End))
  {
    var begun := Step(q, Begin(now));
    var called := Callbacks(begun, scripts, n);
    StepKeepsInv(q, Begin(now));
    forall id: TimerId | id.sequence <= q.created
      ensures id in Step(called, End).pending <==>
        && id in q.pending && !CancelledBy(scripts, n, id)
        && (q.pending[id].when > now || q.pending[id].interval > 0.0)
      ensures id in Step(called, End).pending ==>
        && Step(called, End).pending[id].interval == q.pending[id].interval
        && if q.pending[id].when > now then Step(called, End).pending[id].when == q.pending[id].when
           else OneIntervalOn(now, q.pending[id].interval, Step(called, End).pending[id].when)
    {
      CallbacksKeep(begun, scripts, n, id);
    }
  }

  ghost predicate AddsTimer(ops: seq<UserOp>, id: TimerId, rec: Record) {
    exists op | op in ops :: op.Add? && op.addr == id.addr && op.when == rec.when && op.interval == rec.interval
  }

  lemma {:induction false} UserStepsAdd(q: Queue, ops: seq<UserOp>, id: TimerId)
    ensures var r := UserSteps(q, ops);
            id in r.pending ==> if id in q.pending && r.pending[id] == q.pending[id] then true
                                else AddsTimer(ops, id, r.pending[id])
    decreases |ops|
  {
    if ops != [] {
      assert ops == [ops[0]] + ops[1..];
      UserStepsAdd(UserStep(q, ops[0]), ops[1..], id);
    }
  }

  lemma {:induction false} CallbacksAdd(q: Queue, scripts: nat -> seq<UserOp>, n: nat, id: TimerId)
    ensures var r := Callbacks(q, scripts, n);
            id in r.pending && id !in q.pending ==>
              exists i | 0 <= i < n :: AddsTimer(scripts(i), id, r.pending[id])
  {
    if n > 0 {
      CallbacksAdd(q, scripts, n - 1, id);
      UserStepsAdd(Callbacks(q, scripts, n - 1), scripts(n - 1), id);
    }
  }

  /** And whatever else a batch leaves behind, one of its callbacks has added just so. */
  lemma BatchAdds(q: Queue, now: int, scripts: nat -> seq<UserOp>, n: nat, id: TimerId)
    requires Inv(q) && q.batch.None? && id.sequence > q.created
    ensures var r := Step(Callbacks(Step(q, Begin(now)), scripts, n), End);
            id in r.pending ==>
              exists i | 0 <= i < n :: AddsTimer(scripts(i), id, r.pending[id])
  {
    var begun := Step(q, Begin(now));
    StepKeepsInv(q, Begin(now));
    CallbacksKeep(begun, scripts, n, TimerId(0, 0));
    CallbacksAdd(begun, scripts, n, id);
  }
}
