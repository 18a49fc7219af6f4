// Fiber as an object: the state changes of one fiber, and that the scheduler makes no others.
module FiberObjects {
  import opened Options
  import opened SchedulerQueues
  import opened SchedulerMachine
  import opened SchedulerLedger
  import opened SchedulerFibers

  // What happens to a fiber's state; Settled is what run() does after the switch back.
  datatype Op = Resetting | SwappingIn | YieldingReady | YieldingHold | Finishing(failed: bool) | Settled

  // The state after an operation; None is a failed assertion.
  function Next(a: FiberState, op: Op): Option<FiberState> {
    match op
    case Resetting => if a == Term || a == Except || a == Init then Some(Init) else None
    case SwappingIn => if a != Exec then Some(Exec) else None
    case YieldingReady => if a == Exec then Some(Ready) else None
    case YieldingHold => if a == Exec then Some(Exec) else None
    case Finishing(failed) => if a == Exec then Some(if failed then Except else Term) else None
    case Settled => Some(if a == Ready || a == Term || a == Except then a else Hold)
  }

  class Fiber {
    const id: nat
    var state: FiberState
    var cb: Option<nat>

    constructor (number: nat, callback: Option<nat>)
      ensures id == number && state == Init && cb == callback
    {
      id, state, cb := number, Init, callback;
    }

    // The main fiber, number 0, cannot be reset.
    method Reset(callback: Option<nat>) returns (ok: bool)
      modifies this
      ensures ok <==> id != 0 && old(state) in {Init, Term, Except}
      ensures if ok then state == Init && cb == callback else state == old(state) && cb == old(cb)
      ensures id != 0 ==> Next(old(state), Resetting) == if ok then Some(state) else None
    {
      if id == 0 || !(state == Term || state == Except || state == Init) {
        return false;
      }
      cb := callback;
      state := Init;
      ok := true;
    }

    // MainFunc after the callback: cleared when it returned, kept when it threw.
    method Finish(failed: bool)
      requires state == Exec
      modifies this
      ensures state == if failed then Except else Term
      ensures cb == if failed then old(cb) else None
      ensures Next(old(state), Finishing(failed)) == Some(state)
    {
      if failed {
        state := Except;
      } else {
        cb := None;
        state := Term;
      }
    }

    // run() when the fiber is back: true asks to schedule it again.
    method Settle() returns (again: bool)
      modifies this`state
      ensures again <==> old(state) == Ready
      ensures state == if old(state) in {Ready, Term, Except} then old(state) else Hold
      ensures Next(old(state), Settled) == Some(state)
    {
      if state == Ready {
        return true;
      }
      if state != Term && state != Except {
        state := Hold;
      }
      again := false;
    }
  }

  // The fiber that a thread believes to be running. Every operation says whether its
  // assertion held.
  class Thread {
    var current: Fiber
    const scheduler: Fiber

    constructor (main: Fiber)
      ensures current == main && scheduler == main
    {
      current, scheduler := main, main;
    }

    method SwapIn(f: Fiber) returns (ok: bool)
      modifies this`current, f`state
      ensures ok <==> old(f.state) != Exec
      ensures current == f && f.state == Exec
      ensures Next(old(f.state), SwappingIn) == if ok then Some(f.state) else None
    {
      current := f;
      ok := f.state != Exec;
      f.state := Exec;
    }

    method YieldToReady() returns (ok: bool)
      modifies this`current, current`state
      ensures ok <==> old(current.state) == Exec
      ensures ok ==> old(current).state == Ready && current == scheduler
      ensures Next(old(current.state), YieldingReady) == if ok then Some(old(current).state) else None
    {
      if current.state != Exec {
        return false;
      }
      current.state := Ready;
      current := scheduler;
      ok := true;
    }

    // The state stays EXEC, so that nobody resumes the fiber before it has switched out.
    method YieldToHold() returns (ok: bool)
      modifies this`current
      ensures ok <==> old(current.state) == Exec
      ensures ok ==> old(current).state == Exec && current == scheduler
      ensures Next(old(current.state), YieldingHold) == if ok then Some(old(current).state) else None
    {
      if current.state != Exec {
        return false;
      }
      current := scheduler;
      ok := true;
    }
  }

  // ---- the scheduler keeps to these operations ----

  // What a step of the machine does to a fiber, if anything. A finished callback fiber is reset
  // when run() settles it.
  function OpOn(s: State, step: Step, f: nat): Option<Op>
    requires Shape(s) && Enabled(s, step)
  {
    match step
    case Resume(w, spare) => if ResumeTarget(s.workers[w], spare) == f then Some(SwappingIn) else None
    case YieldHold(w) => if s.workers[w].phase.fiber == f then Some(YieldingHold) else None
    case YieldReady(w) => if s.workers[w].phase.fiber == f then Some(YieldingReady) else None
    case Finish(w, failed) => if s.workers[w].phase.fiber == f then Some(Finishing(failed)) else None
    case Settle(w) =>
      if s.workers[w].phase.fiber != f then None
      else if s.workers[w].phase.isCallback && StateOf(s.fibers, f) in {Term, Except} then Some(Resetting)
      else Some(Settled)
    case _ => None
  }

  // The state before and after: nothing happens to the fiber, or the operation, whose assertion
  // holds.
  predicate Follows(a: FiberState, b: FiberState, op: Option<Op>) {
    if op.None? then b == a else Next(a, op.value) == Some(b)
  }

  // In a disciplined run every step does to every fiber exactly the operation of Fiber that it
  // stands for, its assertion holds, and no fiber is forgotten.
  lemma StatesFollowFiber(states: seq<State>, steps: seq<Step>, tids: seq<int>, i: nat, f: nat)
    requires DisciplinedRun(states, steps, tids) && i < |steps| && f in states[i].fibers
    ensures f in states[i + 1].fibers
    ensures Follows(states[i].fibers[f], states[i + 1].fibers[f], OpOn(states[i], steps[i], f))
  {
    hide FiberInv, Ledger, Follows, Disciplined, OpOn;
    RunKeepsFibers(states, steps, tids, i);
    StepFollowsFiber(states[i], steps[i], f);
  }

  lemma StepFollowsFiber(s: State, step: Step, f: nat)
    requires Shape(s) && FiberInv(ViewOf(s)) && Enabled(s, step) && f in s.fibers
    ensures f in Apply(s, step).fibers && Follows(s.fibers[f], Apply(s, step).fibers[f], OpOn(s, step, f))
  {
    hide FiberInv, DoDrawLocal, DoDrawGlobal, DoTryVictim, DoSplice, DoAccount, DoRequeue, DoEnterRun, DoEnqueue;
    hide DoStealStarts, DoStealAlone, DoCheckLocal, DoIdle, DoSettle, DoYield, DoResume, DoSkipDead, DoSwitchBack;
    match step
    case Enqueue(caller, work, thread, forceGlobal) => EnqueueFollows(s, caller, work, thread, forceGlobal, f);
    case Resume(w, spare) => ResumeFollows(s, w, spare, f);
    case YieldHold(w) => YieldFollows(s, w, Exec, YieldingHold, f);
    case YieldReady(w) => YieldFollows(s, w, Ready, YieldingReady, f);
    case Finish(w, failed) => YieldFollows(s, w, if failed then Except else Term, Finishing(failed), f);
    case Settle(w) => SettleFollows(s, w, f);
    case DrawLocal(w) => DrawsKeepStates(s, w);
    case DrawGlobal(w) => DrawsKeepStates(s, w);
    case TryVictim(w) => TryKeepsStates(s, w);
    case _ => OthersKeepStates(s, step);
  }

  lemma DrawsKeepStates(s: State, w: nat)
    requires Shape(s) && At(s, w)
    ensures DoDrawLocal(s, w).fibers == s.fibers && DoDrawGlobal(s, w).fibers == s.fibers
  {
    hide PopLocal, PopGlobal, Shape;
  }

  lemma TryKeepsStates(s: State, w: nat)
    requires Shape(s) && At(s, w) && s.workers[w].phase.Stealing?
    ensures DoTryVictim(s, w).fibers == s.fibers
  {
    hide Steal;
  }

  lemma OthersKeepStates(s: State, step: Step)
    requires Shape(s) && Enabled(s, step)
    requires !step.Enqueue? && !step.Resume? && !step.YieldHold? && !step.YieldReady? && !step.Finish? && !step.Settle?
    requires !step.DrawLocal? && !step.DrawGlobal? && !step.TryVictim?
    ensures Apply(s, step).fibers == s.fibers
  {
    hide DoDrawLocal, DoDrawGlobal, DoTryVictim, DoSplice, DoAccount, DoEnterRun, DoEnqueue, DoSettle, DoYield, DoResume;
    hide DoStealStarts, DoStealAlone, DoCheckLocal, DoIdle, DoSkipDead, DoSwitchBack;
    if !step.Start? && !step.RaiseAutoStop? && !step.RaiseStopping? {
      QuietKeepsStates(s, step.w);
      IdlingKeepsStates(s, step.w);
    }
  }

  lemma QuietKeepsStates(s: State, w: nat)
    requires Shape(s) && At(s, w)
    ensures DoEnterRun(s, w).fibers == s.fibers && DoSkipDead(s, w).fibers == s.fibers
    ensures s.workers[w].phase.Splicing? ==> DoSplice(s, w).fibers == s.fibers
    ensures s.workers[w].phase.Drawn? ==> DoAccount(s, w).fibers == s.fibers
    ensures s.workers[w].phase.SwitchedOut? ==> DoSwitchBack(s, w).fibers == s.fibers
  {
    hide CountDraw, Cursor;
  }

  lemma IdlingKeepsStates(s: State, w: nat)
    requires Shape(s) && At(s, w)
    ensures DoStealStarts(s, w).fibers == s.fibers && DoStealAlone(s, w).fibers == s.fibers
    ensures DoIdle(s, w).fibers == s.fibers
    ensures s.workers[w].phase.CheckLocals? ==> DoCheckLocal(s, w).fibers == s.fibers
  {
    hide Cursor;
  }

  lemma EnqueueFollows(s: State, caller: Option<nat>, work: Work, thread: int, forceGlobal: bool, f: nat)
    requires Shape(s) && Enabled(s, Enqueue(caller, work, thread, forceGlobal)) && f in s.fibers
    ensures f in DoEnqueue(s, caller, work, thread, forceGlobal).fibers
    ensures DoEnqueue(s, caller, work, thread, forceGlobal).fibers[f] == s.fibers[f]
  {
  }

  lemma ResumeFollows(s: State, w: nat, spare: nat, f: nat)
    requires Shape(s) && Enabled(s, Resume(w, spare)) && f in s.fibers
    ensures f in DoResume(s, w, spare).fibers
    ensures Follows(s.fibers[f], DoResume(s, w, spare).fibers[f], OpOn(s, Resume(w, spare), f))
  {
  }

  lemma YieldFollows(s: State, w: nat, state: FiberState, op: Op, f: nat)
    requires Shape(s) && FiberInv(ViewOf(s)) && At(s, w) && s.workers[w].phase.Running? && f in s.fibers
    requires Next(Exec, op) == Some(state)
    ensures f in DoYield(s, w, state).fibers
    ensures Follows(s.fibers[f], DoYield(s, w, state).fibers[f], if s.workers[w].phase.fiber == f then Some(op) else None)
  {
    assert ClaimFits(ViewOf(s), s.workers[w]);
  }

  lemma SettleFollows(s: State, w: nat, f: nat)
    requires Shape(s) && At(s, w) && s.workers[w].phase.Settling? && f in s.fibers
    ensures f in DoSettle(s, w).fibers && Follows(s.fibers[f], DoSettle(s, w).fibers[f], OpOn(s, Settle(w), f))
  {
  }
}
