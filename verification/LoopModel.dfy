/** The pending-functor and eventfd protocol of the event loop (net/EventLoop.cc), one atomic step at
    a time: any number of other threads push and wake, the loop thread polls, dispatches, swaps and runs. */
module LoopModel {

  type Functor = nat
  type ThreadId = nat

  /** The most an eventfd counter holds; a write beyond it is refused. */
  const EVENTFD_MAX: nat := 0xFFFF_FFFF_FFFF_FFFE

  /** Where the loop thread is. `Dispatching` remembers whether the wakeup channel is still to be
      handled; `Running` holds the local batch and how many of its functors have been called. */
  datatype LoopPc =
    | NotStarted
    | Testing
    | Polling
    | Dispatching(wake: bool)
    | Swapping
    | Running(batch: seq<Functor>, called: nat)
    | Stopped

  datatype Loop = Loop(
    pc: LoopPc,
    quit: bool,
    calling: bool,
    pending: seq<Functor>,
    counter: nat,
    owing: set<ThreadId>,
    loopOwes: bool,
    enqueued: seq<Functor>,
    executed: seq<Functor>)

  /** `Push`, `SetQuit` and `Wake` are steps of other threads; the rest belong to the loop thread. */
  datatype LoopStep =
    | Push(t: ThreadId, f: Functor)
    | SetQuit(t: ThreadId)
    | Wake(t: ThreadId)
    | Start
    | Test
    | PollReturns(wake: bool)
    | HandleWake
    | PushLocal(f: Functor)
    | WakeLocal
    | QuitLocal
    | EndDispatch
    | Swap
    | Call
    | EndBatch

  function Bumped(counter: nat): (c: nat)
    ensures c > 0
  {
    if counter < EVENTFD_MAX then counter + 1 else counter
  }

  /** The loop thread is inside an event handler or a functor: user code may call back. */
  ghost predicate InUserCode(s: Loop) {
    s.pc.Dispatching? || (s.pc.Running? && s.pc.called > 0)
  }

  ghost predicate Enabled(s: Loop, step: LoopStep) {
    match step
    case Push(t, _) => t !in s.owing
    case SetQuit(t) => t !in s.owing
    case Wake(t) => t in s.owing
    case Start => s.pc.NotStarted?
    case Test => s.pc.Testing?
    case PollReturns(wake) => s.pc.Polling? && (wake ==> s.counter > 0)
    case HandleWake => s.pc == Dispatching(true)
    case PushLocal(_) => InUserCode(s) && !s.loopOwes
    case WakeLocal => s.loopOwes
    case QuitLocal => InUserCode(s) && !s.loopOwes
    case EndDispatch => s.pc == Dispatching(false)
    case Swap => s.pc.Swapping?
    case Call => s.pc.Running? && s.pc.called < |s.pc.batch| && !s.loopOwes
    case EndBatch => s.pc.Running? && s.pc.called >= |s.pc.batch| && !s.loopOwes
  }

  ghost function Next(s: Loop, step: LoopStep): Loop
    requires Enabled(s, step)
  {
    match step
    case Push(t, f) => s.(pending := s.pending + [f], enqueued := s.enqueued + [f], owing := s.owing + {t})
    case SetQuit(t) => s.(quit := true, owing := s.owing + {t})
    case Wake(t) => s.(counter := Bumped(s.counter), owing := s.owing - {t})
    case Start => s.(pc := Testing, quit := false)
    case Test => s.(pc := if s.quit then Stopped else Polling)
    case PollReturns(wake) => s.(pc := Dispatching(wake))
    case HandleWake => s.(pc := Dispatching(false), counter := 0)
    case PushLocal(f) => s.(pending := s.pending + [f], enqueued := s.enqueued + [f], loopOwes := s.calling)
    case WakeLocal => s.(counter := Bumped(s.counter), loopOwes := false)
    case QuitLocal => s.(quit := true)
    case EndDispatch => s.(pc := Swapping, calling := true)
    case Swap => s.(pc := Running(s.pending, 0), pending := [])
    case Call => s.(pc := Running(s.pc.batch, s.pc.called + 1), executed := s.executed + [s.pc.batch[s.pc.called]])
    case EndBatch => s.(pc := Testing, calling := false)
  }

  const INITIALLY := Loop(NotStarted, false, false, [], 0, {}, false, [], [])

  ghost predicate LegalRun(s: Loop, steps: seq<LoopStep>)
    decreases |steps|, 0
  {
    steps != [] ==>
      && LegalRun(s, steps[..|steps| - 1])
      && Enabled(Run(s, steps[..|steps| - 1]), steps[|steps| - 1])
  }

  ghost function Run(s: Loop, steps: seq<LoopStep>): Loop
    requires LegalRun(s, steps)
    decreases |steps|, 1
  {
    if steps == [] then s else Next(Run(s, steps[..|steps| - 1]), steps[|steps| - 1])
  }

  lemma RunSnoc(s: Loop, steps: seq<LoopStep>, step: LoopStep)
    requires LegalRun(s, steps) && Enabled(Run(s, steps), step)
    ensures LegalRun(s, steps + [step]) && Run(s, steps + [step]) == Next(Run(s, steps), step)
  {
  }

  // ----- What every step keeps -----

  /** The functors of the local batch that have not been called yet. */
  ghost function Uncalled(pc: LoopPc): seq<Functor> {
    if pc.Running? && pc.called <= |pc.batch| then pc.batch[pc.called..] else []
  }

  ghost predicate Conserved(s: Loop) {
    && s.enqueued == s.executed + Uncalled(s.pc) + s.pending
    && (s.pc.Running? ==> s.pc.called <= |s.pc.batch|)
  }

  /** Somebody has seen to it, or is about to, that the eventfd becomes readable. */
  ghost predicate WakeupUnderway(s: Loop) {
    s.counter > 0 || s.owing != {} || s.loopOwes
  }

  ghost predicate Awake(s: Loop) {
    && (s.calling <==> s.pc.Swapping? || s.pc.Running?)
    && (s.loopOwes ==> s.pc.Running?)
    && (s.pc.Dispatching? && s.pc.wake ==> s.counter > 0)
    && (s.pending != [] && !s.pc.Dispatching? && !s.pc.Swapping? ==> WakeupUnderway(s))
    && (s.quit && s.pc.Polling? ==> WakeupUnderway(s))
  }

  lemma NextConserved(s: Loop, step: LoopStep)
    requires Conserved(s) && Enabled(s, step)
    ensures Conserved(Next(s, step))
  {
    match step
    case Call => assert Uncalled(s.pc) == [s.pc.batch[s.pc.called]] + s.pc.batch[s.pc.called + 1..];
    case _ =>
  }

  lemma NextAwake(s: Loop, step: LoopStep)
    requires Awake(s) && Enabled(s, step)
    ensures Awake(Next(s, step))
  {
    match step
    case Wake(t) =>
    case _ => assert forall t | t in s.owing :: t in Next(s, step).owing;
  }

  lemma {:induction false} RunInvariant(steps: seq<LoopStep>)
    requires LegalRun(INITIALLY, steps)
    ensures Conserved(Run(INITIALLY, steps)) && Awake(Run(INITIALLY, steps))
    decreases |steps|
  {
    if steps != [] {
      RunInvariant(steps[..|steps| - 1]);
      NextConserved(Run(INITIALLY, steps[..|steps| - 1]), steps[|steps| - 1]);
      NextAwake(Run(INITIALLY, steps[..|steps| - 1]), steps[|steps| - 1]);
    }
  }

  lemma SwapTakesAll(s: Loop)
    requires Conserved(s) && s.pc.Swapping?
    ensures s.enqueued == s.executed + s.pending
  {
  }

  // ----- Results -----

  /** The functors that threads have handed over in a run, in order. */
  ghost function Pushed(steps: seq<LoopStep>): seq<Functor>
    decreases |steps|
  {
    if steps == [] then []
    else
      var last := steps[|steps| - 1];
      Pushed(steps[..|steps| - 1]) + if last.Push? || last.PushLocal? then [last.f] else []
  }

  ghost function Calls(steps: seq<LoopStep>): nat
    decreases |steps|
  {
    if steps == [] then 0
    else Calls(steps[..|steps| - 1]) + if steps[|steps| - 1].Call? then 1 else 0
  }

  /** Somebody has told the loop to quit since it started. */
  ghost predicate Told(steps: seq<LoopStep>)
    decreases |steps|
  {
    steps != [] &&
    var last := steps[|steps| - 1];
    last.SetQuit? || last.QuitLocal? || (!last.Start? && Told(steps[..|steps| - 1]))
  }

  /** Another thread has pushed or told the loop to quit, and not yet woken it for that. */
  ghost predicate Owes(steps: seq<LoopStep>, t: ThreadId)
    decreases |steps|
  {
    steps != [] &&
    var last := steps[|steps| - 1];
    || ((last.Push? || last.SetQuit?) && last.t == t)
    || (last != Wake(t) && Owes(steps[..|steps| - 1], t))
  }

  /** Somebody has woken the loop since it last handled that. */
  ghost predicate Woken(steps: seq<LoopStep>)
    decreases |steps|
  {
    steps != [] &&
    var last := steps[|steps| - 1];
    last.Wake? || last.WakeLocal? || (!last.HandleWake? && Woken(steps[..|steps| - 1]))
  }

  /** What the steps of a run say about the state it leads to. */
  ghost predicate Tells(steps: seq<LoopStep>, s: Loop) {
    && s.enqueued == Pushed(steps) && |s.executed| == Calls(steps)
    && (s.quit <==> Told(steps))
    && (s.counter > 0 <==> Woken(steps))
    && (forall t :: t in s.owing <==> Owes(steps, t))
  }

  lemma NextTells(steps: seq<LoopStep>, s: Loop, step: LoopStep)
    requires Tells(steps, s) && Enabled(s, step)
    ensures Tells(steps + [step], Next(s, step))
  {
    var all := steps + [step];
    assert all[..|all| - 1] == steps && all[|all| - 1] == step;
    assert forall t :: t in Next(s, step).owing <==> Owes(all, t) by {
      assert forall t :: t in s.owing <==> Owes(steps, t);
    }
  }

  lemma {:induction false} RunTells(steps: seq<LoopStep>)
    requires LegalRun(INITIALLY, steps)
    ensures Tells(steps, Run(INITIALLY, steps))
    decreases |steps|
  {
    if steps != [] {
      var front, last := steps[..|steps| - 1], steps[|steps| - 1];
      RunTells(front);
      NextTells(front, Run(INITIALLY, front), last);
      assert front + [last] == steps;
    }
  }

  /** Exactly once, in order: over every interleaving the functors that threads have handed over are
      those executed, one for every call, then the rest of the local batch, then the pending ones. */
  lemma FunctorsConserved(steps: seq<LoopStep>)
    requires LegalRun(INITIALLY, steps)
    ensures var s := Run(INITIALLY, steps);
            Pushed(steps) == s.executed + Uncalled(s.pc) + s.pending && |s.executed| == Calls(steps)
  {
    RunInvariant(steps);
    RunTells(steps);
  }

  /** No lost wakeup: whenever the loop can block in poll although work is queued or it was told to
      quit, some thread is between its push (or its quit flag) and its wakeup, and the wakeup of any
      such thread makes the eventfd readable. */
  lemma NoLostWakeup(steps: seq<LoopStep>)
    requires LegalRun(INITIALLY, steps)
    ensures var s := Run(INITIALLY, steps);
            s.pc.Polling? && s.counter == 0 && (s.pending != [] || Told(steps)) ==>
              && (exists t :: Owes(steps, t))
              && forall t | Owes(steps, t) :: Enabled(s, Wake(t)) && Next(s, Wake(t)).counter > 0
  {
    RunInvariant(steps);
    RunTells(steps);
    var s := Run(INITIALLY, steps);
    if s.owing != {} {
      var t :| t in s.owing;
      assert Owes(steps, t);
    }
  }

  /** How far the first `n` functors have come: queued, taken into the batch, executed. */
  ghost predicate Reaches(s: Loop, n: nat) {
    match s.pc
    case Running(batch, called) => n <= |s.executed| + |batch| - called
    case Testing => n <= |s.executed|
    case Stopped => n <= |s.executed|
    case _ => n <= |s.enqueued|
  }

  lemma NextReaches(s: Loop, step: LoopStep, n: nat)
    requires Conserved(s) && Reaches(s, n) && Enabled(s, step) && s.pc != NotStarted
    ensures Reaches(Next(s, step), n)
  {
  }

  lemma {:induction false} RunReaches(s: Loop, steps: seq<LoopStep>, n: nat)
    requires LegalRun(s, steps) && Conserved(s) && Reaches(s, n) && s.pc != NotStarted
    ensures var r := Run(s, steps); Conserved(r) && Reaches(r, n) && r.pc != NotStarted && s.enqueued <= r.enqueued
    decreases |steps|
  {
    if steps != [] {
      var r := Run(s, steps[..|steps| - 1]);
      RunReaches(s, steps[..|steps| - 1], n);
      NextConserved(r, steps[|steps| - 1]);
      NextReaches(r, steps[|steps| - 1], n);
    }
  }

  /** One iteration is enough: everything queued by the time the loop is in poll has been executed
      when the loop next tests its condition, whatever is queued meanwhile. */
  lemma IterationExecutesAllQueued(before: seq<LoopStep>, after: seq<LoopStep>)
    requires LegalRun(INITIALLY, before) && Run(INITIALLY, before).pc.Polling?
    requires LegalRun(Run(INITIALLY, before), after) && Run(Run(INITIALLY, before), after).pc.Testing?
    ensures Run(INITIALLY, before).enqueued <= Run(Run(INITIALLY, before), after).executed
  {
    var s := Run(INITIALLY, before);
    RunInvariant(before);
    RunReaches(s, after, |s.enqueued|);
  }

  /** A batch has the length it had when it was taken, even if its functors queue themselves again:
      until it ends, the loop stays in it, and it has called exactly its first so-many functors. */
  lemma {:induction false} BatchIsFixed(s: Loop, steps: seq<LoopStep>)
    requires s.pc.Running? && s.pc.called <= |s.pc.batch| && LegalRun(s, steps) && EndBatch !in steps
    ensures var r := Run(s, steps);
            && r.pc == Running(s.pc.batch, s.pc.called + Calls(steps))
            && s.pc.called + Calls(steps) <= |s.pc.batch|
            && r.executed == s.executed + s.pc.batch[s.pc.called..s.pc.called + Calls(steps)]
    decreases |steps|
  {
    if steps != [] {
      var prev := steps[..|steps| - 1];
      assert steps == prev + [steps[|steps| - 1]];
      BatchIsFixed(s, prev);
    } else {
      assert s.pc.batch[s.pc.called..s.pc.called] == [];
    }
  }
}
