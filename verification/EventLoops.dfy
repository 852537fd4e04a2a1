/** The loop thread's code (net/EventLoop.cc), with other threads running between any two of its
    shared accesses. `trace` records the atomic steps; `Valid` says that the object is where the
    protocol of `LoopModel` gets by those steps, so every result there is about this code. */
module EventLoops {
  import opened LoopModel

  /** What event handlers and functors may call on their own loop. */
  datatype LocalCall = QueueInLoop(f: Functor) | Quit

  /** Steps that other threads make. */
  ghost predicate IsForeign(step: LoopStep) {
    step.Push? || step.SetQuit? || step.Wake?
  }

  ghost function Made(s: Loop, step: LoopStep): seq<LoopStep> {
    if IsForeign(step) && Enabled(s, step) then [step] else []
  }

  ghost function After(s: Loop, step: LoopStep): Loop {
    if IsForeign(step) && Enabled(s, step) then Next(s, step) else s
  }

  /** Those of the steps that other threads can make, one after the other. */
  ghost function Possible(s: Loop, steps: seq<LoopStep>): seq<LoopStep>
    decreases |steps|
  {
    if steps == [] then [] else Made(s, steps[0]) + Possible(After(s, steps[0]), steps[1..])
  }

  /** The calls that user code on the loop thread makes. */
  ghost function Local(steps: seq<LoopStep>): seq<LoopStep>
    decreases |steps|
  {
    if steps == [] then []
    else
      var last := steps[|steps| - 1];
      Local(steps[..|steps| - 1]) + if last.PushLocal? || last.QuitLocal? then [last] else []
  }

  lemma {:induction false} LocalConcat(first: seq<LoopStep>, second: seq<LoopStep>)
    ensures Local(first + second) == Local(first) + Local(second)
    decreases |second|
  {
    if second == [] {
      assert first + second == first;
    } else {
      assert (first + second)[..|first + second| - 1] == first + second[..|second| - 1];
      LocalConcat(first, second[..|second| - 1]);
    }
  }

  lemma {:induction false} ForeignIsNotLocal(steps: seq<LoopStep>)
    requires forall step | step in steps :: IsForeign(step)
    ensures Local(steps) == []
    decreases |steps|
  {
    if steps != [] {
      assert steps[|steps| - 1] in steps;
      ForeignIsNotLocal(steps[..|steps| - 1]);
    }
  }

  lemma {:induction false} PossibleIsForeign(s: Loop, steps: seq<LoopStep>)
    ensures forall step | step in Possible(s, steps) :: IsForeign(step)
    decreases |steps|
  {
    if steps != [] {
      PossibleIsForeign(After(s, steps[0]), steps[1..]);
    }
  }

  /** The steps in which user code makes these calls. */
  ghost function StepsOf(script: seq<LocalCall>): seq<LoopStep> {
    seq(|script|, i requires 0 <= i < |script| =>
      match script[i] case QueueInLoop(f) => PushLocal(f) case Quit => QuitLocal)
  }

  lemma StepsCons(script: seq<LocalCall>)
    requires script != []
    ensures StepsOf(script) == StepsOf([script[0]]) + StepsOf(script[1..])
  {
  }

  class EventLoop {
    var looping: bool
    var quit: bool
    var calling: bool
    var pending: seq<Functor>
    /** The eventfd behind `wakeupFd_`. */
    var counter: nat

    /** The other threads: those that still owe a wakeup, and what they do at each preemption. */
    var owing: set<ThreadId>
    const others: nat -> seq<LoopStep>
    var preemptions: nat

    /** User code: what the n-th handler or functor calls; and what the n-th poll reports. */
    const calls: nat -> seq<LocalCall>
    var entered: nat
    const reported: nat -> bool

    ghost var pc: LoopPc
    ghost var loopOwes: bool
    ghost var enqueued: seq<Functor>
    ghost var executed: seq<Functor>
    ghost var trace: seq<LoopStep>

    constructor (others: nat -> seq<LoopStep>, calls: nat -> seq<LocalCall>, reported: nat -> bool)
      ensures Valid() && trace == [] && pc == NotStarted
    {
      this.others, this.calls, this.reported := others, calls, reported;
      looping, quit, calling, pending, counter := false, false, false, [], 0;
      owing, preemptions, entered := {}, 0, 0;
      pc, loopOwes, enqueued, executed, trace := NotStarted, false, [], [], [];
    }

    ghost function View(): Loop
      reads this
    {
      Loop(pc, quit, calling, pending, counter, owing, loopOwes, enqueued, executed)
    }

    ghost predicate Valid()
      reads this
    {
      && LegalRun(INITIALLY, trace) && Run(INITIALLY, trace) == View()
      && (looping <==> pc != NotStarted && pc != Stopped)
    }

    /** The shared access just made was this step of the protocol. */
    ghost method Log(step: LoopStep)
      requires LegalRun(INITIALLY, trace) && Enabled(Run(INITIALLY, trace), step)
      requires View() == Next(Run(INITIALLY, trace), step)
      modifies this`trace
      ensures LegalRun(INITIALLY, trace) && Run(INITIALLY, trace) == View()
      ensures trace == old(trace) + [step]
      ensures Local(trace) == Local(old(trace)) + Local([step])
    {
      RunSnoc(INITIALLY, trace, step);
      LocalConcat(trace, [step]);
      trace := trace + [step];
    }

    // The steps of other threads.

    /** queueInLoop, up to the wakeup. */
    method PushForeign(t: ThreadId, f: Functor)
      requires Valid() && t !in owing
      modifies this`pending, this`owing, this`enqueued, this`trace
      ensures Valid() && trace == old(trace) + [Push(t, f)] && View() == Next(old(View()), Push(t, f))
      ensures pending == old(pending) + [f] && enqueued == old(enqueued) + [f] && t in owing
    {
      pending, enqueued, owing := pending + [f], enqueued + [f], owing + {t};
      Log(Push(t, f));
    }

    /** quit, up to the wakeup. */
    method SetQuitForeign(t: ThreadId)
      requires Valid() && t !in owing
      modifies this`quit, this`owing, this`trace
      ensures Valid() && trace == old(trace) + [SetQuit(t)] && View() == Next(old(View()), SetQuit(t))
      ensures quit && t in owing
    {
      quit, owing := true, owing + {t};
      Log(SetQuit(t));
    }

    method WakeForeign(t: ThreadId)
      requires Valid() && t in owing
      modifies this`counter, this`owing, this`trace
      ensures Valid() && trace == old(trace) + [Wake(t)] && View() == Next(old(View()), Wake(t))
      ensures counter > 0 && t !in owing
    {
      counter, owing := Bumped(counter), owing - {t};
      Log(Wake(t));
    }

    /** One step of another thread; anything that is not one, or not possible now, does not happen. */
    method Foreign(step: LoopStep)
      requires Valid()
      modifies this`pending, this`quit, this`counter, this`owing, this`enqueued, this`trace
      ensures Valid() && trace == old(trace) + Made(old(View()), step) && View() == After(old(View()), step)
      ensures step.Push? && step.t !in old(owing) ==>
        pending == old(pending) + [step.f] && enqueued == old(enqueued) + [step.f] && step.t in owing
      ensures step.SetQuit? && step.t !in old(owing) ==> quit && step.t in owing
      ensures step.Wake? && step.t in old(owing) ==> counter > 0 && step.t !in owing
    {
      match step {
        case Push(t, f) => if t !in owing { PushForeign(t, f); }
        case SetQuit(t) => if t !in owing { SetQuitForeign(t); }
        case Wake(t) => if t in owing { WakeForeign(t); }
        case _ =>
      }
    }

    /** Other threads run for a while. */
    method Preempt()
      requires Valid()
      modifies this`preemptions, this`pending, this`quit, this`counter, this`owing, this`enqueued, this`trace
      ensures Valid() && old(enqueued) <= enqueued && old(trace) <= trace && Local(trace) == Local(old(trace))
    {
      ghost var steps := others(preemptions);
      LocalConcat(trace, Possible(View(), steps));
      PossibleIsForeign(View(), steps);
      ForeignIsNotLocal(Possible(View(), steps));
      RunOthers(others(preemptions));
      preemptions := preemptions + 1;
    }

    /** All the steps they can make, in order. */
    method RunOthers(steps: seq<LoopStep>)
      requires Valid()
      modifies this`pending, this`quit, this`counter, this`owing, this`enqueued, this`trace
      ensures Valid() && old(enqueued) <= enqueued && trace == old(trace) + Possible(old(View()), steps)
      decreases |steps|
    {
      if steps != [] {
        ghost var made, rest := Made(View(), steps[0]), Possible(After(View(), steps[0]), steps[1..]);
        Foreign(steps[0]);
        RunOthers(steps[1..]);
        assert trace == old(trace) + made + rest == old(trace) + (made + rest);
      }
    }

    method Wakeup()
      requires Valid() && loopOwes
      modifies this`counter, this`loopOwes, this`trace
      ensures Valid() && !loopOwes && old(trace) <= trace && counter == Bumped(old(counter)) > 0
      ensures Local(trace) == Local(old(trace))
    {
      counter, loopOwes := Bumped(counter), false;
      Log(WakeLocal);
    }

    method HandleRead()
      requires Valid() && pc == Dispatching(true)
      modifies this`counter, this`pc, this`trace
      ensures Valid() && pc == Dispatching(false) && counter == 0 && old(trace) <= trace
    {
      counter, pc := 0, Dispatching(false);
      Log(HandleWake);
    }

    /** queueInLoop on the loop thread, up to the wakeup. */
    method PushHere(f: Functor)
      requires Valid() && InUserCode(View()) && !loopOwes
      modifies this`pending, this`loopOwes, this`enqueued, this`trace
      ensures Valid() && loopOwes == calling && trace == old(trace) + [PushLocal(f)]
      ensures Local(trace) == Local(old(trace)) + [PushLocal(f)]
      ensures pending == old(pending) + [f] && enqueued == old(enqueued) + [f]
    {
      pending, enqueued, loopOwes := pending + [f], enqueued + [f], calling;
      Log(PushLocal(f));
    }

    /** queueInLoop on the loop thread. */
    method QueueLocally(f: Functor)
      requires Valid() && InUserCode(View()) && !loopOwes
      modifies this`preemptions, this`pending, this`quit, this`counter, this`owing, this`loopOwes,
               this`enqueued, this`trace
      ensures Valid() && !loopOwes && old(enqueued) + [f] <= enqueued && old(trace) <= trace
      ensures Local(trace) == Local(old(trace)) + [PushLocal(f)]
    {
      PushHere(f);
      Preempt();
      if calling {
        Wakeup();
      }
    }

    /** quit on the loop thread. */
    method QuitLocally()
      requires Valid() && InUserCode(View()) && !loopOwes
      modifies this`quit, this`trace
      ensures Valid() && quit && old(trace) <= trace && Local(trace) == Local(old(trace)) + [QuitLocal]
    {
      quit := true;
      Log(QuitLocal);
    }

    method MakeCall(call: LocalCall)
      requires Valid() && InUserCode(View()) && !loopOwes
      modifies this`preemptions, this`pending, this`quit, this`counter, this`owing, this`loopOwes,
               this`enqueued, this`trace
      ensures Valid() && !loopOwes && old(enqueued) <= enqueued && old(trace) <= trace
      ensures Local(trace) == Local(old(trace)) + StepsOf([call])
    {
      Preempt();
      match call {
        case QueueInLoop(f) => QueueLocally(f);
        case Quit => QuitLocally();
      }
    }

    /** These calls, in order. */
    method MakeCalls(script: seq<LocalCall>)
      requires Valid() && InUserCode(View()) && !loopOwes
      modifies this`preemptions, this`pending, this`quit, this`counter, this`owing, this`loopOwes,
               this`enqueued, this`trace
      ensures Valid() && !loopOwes && old(enqueued) <= enqueued && old(trace) <= trace
      ensures Local(trace) == Local(old(trace)) + StepsOf(script)
      decreases |script|
    {
      if script != [] {
        StepsCons(script);
        ghost var before, first, rest := Local(trace), StepsOf([script[0]]), StepsOf(script[1..]);
        MakeCall(script[0]);
        MakeCalls(script[1..]);
        assert Local(trace) == before + first + rest == before + (first + rest);
      }
    }

    /** One handler or functor, calling back into the loop as it pleases: just the calls it means to
        make, in order. */
    method UserCode()
      requires Valid() && InUserCode(View()) && !loopOwes
      modifies this`preemptions, this`entered, this`pending, this`quit, this`counter, this`owing, this`loopOwes,
               this`enqueued, this`trace
      ensures Valid() && !loopOwes && old(enqueued) <= enqueued && old(trace) <= trace
      ensures entered == old(entered) + 1
      ensures Local(trace) == Local(old(trace)) + StepsOf(calls(old(entered)))
    {
      MakeCalls(calls(entered));
      entered := entered + 1;
      Preempt();
    }

    // The loop thread's own shared accesses, one by one.

    method StartLooping()
      requires Valid() && pc == NotStarted
      modifies this`looping, this`quit, this`pc, this`trace
      ensures Valid() && pc == Testing && looping && !quit && old(trace) <= trace
    {
      looping, quit, pc := true, false, Testing;
      Log(Start);
    }

    method BeginCalling()
      requires Valid() && pc == Dispatching(false)
      modifies this`calling, this`pc, this`trace
      ensures Valid() && calling && pc == Swapping && old(trace) <= trace
    {
      calling, pc := true, Swapping;
      Log(EndDispatch);
    }

    method SwapFunctors() returns (functors: seq<Functor>)
      requires Valid() && pc == Swapping
      modifies this`pending, this`pc, this`trace
      ensures Valid() && pc == Running(functors, 0) && old(trace) <= trace
      ensures functors == old(pending) && enqueued == executed + functors
    {
      RunInvariant(trace);
      SwapTakesAll(View());
      functors := pending;
      pending, pc := [], Running(functors, 0);
      Log(Swap);
    }

    method CallFunctor(ghost functors: seq<Functor>, f: Functor, ghost i: nat)
      requires Valid() && pc == Running(functors, i) && i < |functors| && functors[i] == f && !loopOwes
      modifies this`executed, this`pc, this`trace
      ensures Valid() && pc == Running(functors, i + 1) && old(trace) <= trace && Local(trace) == Local(old(trace))
      ensures executed == old(executed) + [f]
    {
      executed, pc := executed + [f], Running(functors, i + 1);
      Log(Call);
    }

    method EndCalling()
      requires Valid() && pc.Running? && pc.called == |pc.batch| && !loopOwes
      modifies this`calling, this`pc, this`trace
      ensures Valid() && pc == Testing && !calling && old(trace) <= trace
    {
      calling, pc := false, Testing;
      Log(EndBatch);
    }

    method Poll(round: nat) returns (wake: bool)
      requires Valid() && pc == Polling
      modifies this`pc, this`trace
      ensures Valid() && pc == Dispatching(wake) && old(trace) <= trace
    {
      wake := reported(round) && counter > 0;
      pc := Dispatching(wake);
      Log(PollReturns(wake));
    }

    /** The condition of the while loop. */
    method TestQuit() returns (stop: bool)
      requires Valid() && pc == Testing
      modifies this`pc, this`looping, this`trace
      ensures Valid() && stop == quit && pc == (if quit then Stopped else Polling) && old(trace) <= trace
    {
      stop := quit;
      pc := if quit then Stopped else Polling;
      looping := !quit;
      Log(Test);
    }

    /** One round of the loop of doPendingFunctors, the functor's own calls included. */
    method RunFunctor(ghost functors: seq<Functor>, f: Functor, ghost i: nat)
      requires Valid() && pc == Running(functors, i) && i < |functors| && functors[i] == f && !loopOwes
      modifies this`executed, this`pc, this`preemptions, this`entered, this`pending, this`quit, this`counter,
               this`owing, this`loopOwes, this`enqueued, this`trace
      ensures Valid() && pc == Running(functors, i + 1) && !loopOwes && old(trace) <= trace
      ensures executed == old(executed) + [f] && entered == old(entered) + 1
      ensures Local(trace) == Local(old(trace)) + StepsOf(calls(old(entered)))
    {
      Preempt();
      CallFunctor(functors, f, i);
      UserCode();
    }

    /** The local batch, whatever its functors queue meanwhile. */
    method RunBatch(functors: seq<Functor>)
      requires Valid() && pc == Running(functors, 0) && !loopOwes
      modifies this`executed, this`pc, this`preemptions, this`entered, this`pending, this`quit, this`counter,
               this`owing, this`loopOwes, this`enqueued, this`trace
      ensures Valid() && pc == Running(functors, |functors|) && !loopOwes && old(trace) <= trace
      ensures executed == old(executed) + functors && entered == old(entered) + |functors|
    {
      var i := 0;
      while i < |functors|
        invariant 0 <= i <= |functors|
        invariant Valid() && pc == Running(functors, i) && !loopOwes && old(trace) <= trace
        invariant executed == old(executed) + functors[..i] && entered == old(entered) + i
      {
        RunFunctor(functors, functors[i], i);
        assert functors[..i + 1] == functors[..i] + [functors[i]];
        i := i + 1;
      }
      assert functors[..i] == functors;
    }

    /** The swap and the batch. */
    method TakeAndRun()
      requires Valid() && pc == Dispatching(false) && !loopOwes
      modifies this
      ensures Valid() && pc.Running? && pc.called == |pc.batch| && !loopOwes
      ensures old(trace) <= trace && old(enqueued) <= executed
    {
      BeginCalling();
      Preempt();
      var functors := SwapFunctors();
      ghost var queued := enqueued;
      RunBatch(functors);
      assert executed == queued;
    }

    method FinishCalling()
      requires Valid() && pc.Running? && pc.called == |pc.batch| && !loopOwes
      modifies this
      ensures Valid() && pc == Testing && !loopOwes
      ensures old(trace) <= trace && executed == old(executed) <= enqueued
    {
      Preempt();
      EndCalling();
      RunInvariant(trace);
    }

    /** Everything queued before the swap is executed, in order, and nothing else. */
    method DoPendingFunctors()
      requires Valid() && pc == Dispatching(false) && !loopOwes
      modifies this
      ensures Valid() && pc == Testing && !loopOwes && old(trace) <= trace
      ensures old(enqueued) <= executed <= enqueued
    {
      TakeAndRun();
      FinishCalling();
    }

    /** The poll and the handlers of the channels it reports. */
    method PollAndDispatch(round: nat)
      requires Valid() && pc == Polling && !loopOwes
      modifies this
      ensures Valid() && pc == Dispatching(false) && !loopOwes
      ensures old(trace) <= trace && old(enqueued) <= enqueued
    {
      Preempt();
      var wake := Poll(round);
      UserCode();
      if wake {
        HandleRead();
      }
      UserCode();
    }

    /** From the poll to the end of doPendingFunctors. */
    method Iterate(round: nat)
      requires Valid() && pc == Polling && !loopOwes
      modifies this
      ensures Valid() && pc == Testing && !loopOwes && old(trace) <= trace
      ensures old(enqueued) <= executed <= enqueued
    {
      PollAndDispatch(round);
      DoPendingFunctors();
    }

    /** loop(), for any finite number of rounds: how many were done. It stops early only because it was
        told to quit, and every round executes at least what had been queued when the round began. */
    method RunLoop(rounds: nat) returns (done: nat)
      requires Valid() && pc == NotStarted && !loopOwes
      modifies this
      ensures Valid() && old(trace) <= trace && done <= rounds
      ensures if pc == Stopped then quit && !looping else pc == Testing && done == rounds
      ensures done > 0 ==> old(enqueued) <= executed
    {
      StartLooping();
      var stop := false;
      done := 0;
      while !stop && done < rounds
        invariant Valid() && !loopOwes && old(enqueued) <= enqueued && old(trace) <= trace && done <= rounds
        invariant if stop then pc == Stopped && quit else pc == Testing
        invariant done > 0 ==> old(enqueued) <= executed
      {
        Preempt();
        stop := TestQuit();
        if !stop {
          Iterate(done);
          done := done + 1;
        }
      }
    }
  }
}
