// A fiber that yielded READY is never forgotten: run() queues it again, and its entry stays
// queued or in flight until a worker has chosen it.
module SchedulerReady {
  import opened Options
  import opened SchedulerQueues
  import opened SchedulerMachine
  import opened SchedulerLedger
  import opened SchedulerFibers

  ghost predicate Entered(s: State, f: nat) { exists t :: t in Live(s) && For(t, f) }

  predicate IsReady(s: State, f: nat) { f in s.fibers && s.fibers[f] == Ready }

  ghost predicate Free(s: State, f: nat) { Unclaimed(ViewOf(s), f) }

  // A worker that runs a callback keeps no second fiber for callbacks.
  predicate OneCallback(wk: Worker) {
    (wk.phase.Running? || wk.phase.SwitchedOut? || wk.phase.Settling?) && wk.phase.isCallback ==> wk.cbFiber.None?
  }

  ghost predicate ReadyInv(s: State) {
    && (forall f :: IsReady(s, f) && Free(s, f) ==> Entered(s, f))
    && (forall w :: 0 <= w < |s.workers| ==> OneCallback(s.workers[w]))
  }

  // ---- what run() does after the switch back ----

  // A READY fiber goes to the end of the worker's own queue, as one unpinned entry; a fiber in
  // any other state is not queued. No other queue moves, and the worker goes on.
  lemma SettleQueues(s: State, w: nat)
    requires Shape(s) && Enabled(s, Settle(w)) && s.workers[w].phase.fiber in s.fibers
    ensures var t, wk := Apply(s, Settle(w)), s.workers[w];
      var again := s.fibers[wk.phase.fiber] == Ready;
      && t.global == s.global
      && t.locals == s.locals[wk.proc := s.locals[wk.proc]
           + if again then [Task(FiberWork(wk.phase.fiber), -1, ByWorker(w))] else []]
      && t.workers[w].phase == Top
  {
    var proc := s.workers[w].proc;
    assert s.locals[proc] + [] == s.locals[proc] && s.locals == s.locals[proc := s.locals[proc]];
  }

  // The state that the fiber is left in, and whether it is kept for the next callback: a
  // finished callback fiber is INIT again and kept, any other finished fiber stays as it is,
  // and a parked one becomes HOLD.
  lemma SettleStates(s: State, w: nat)
    requires Shape(s) && Enabled(s, Settle(w)) && s.workers[w].phase.fiber in s.fibers
    ensures var t, wk := Apply(s, Settle(w)), s.workers[w];
      var (f, a) := (wk.phase.fiber, s.fibers[wk.phase.fiber]);
      && t.fibers == s.fibers[f :=
           if a == Ready then Ready
           else if a == Term || a == Except then if wk.phase.isCallback then Init else a
           else Hold]
      && t.workers[w].cbFiber == if (a == Term || a == Except) && wk.phase.isCallback then Some(f) else wk.cbFiber
  {
    hide PushLocal;
    PushKeepsFibers(s, w);
  }

  lemma PushKeepsFibers(s: State, w: nat)
    requires Shape(s) && Enabled(s, Settle(w))
    ensures DoRequeue(s, w).fibers == s.fibers && DoRequeue(s, w).workers[w].cbFiber == s.workers[w].cbFiber
  {
  }

  // ---- entries of READY fibers stay ----

  // Entries of f that are live in s are live in t.
  ghost predicate KeepsEntries(s: State, t: State, f: nat) {
    forall x :: x in Live(s) && For(x, f) ==> x in Live(t)
  }

  lemma SameBooks(s: State, t: State, f: nat)
    requires Balanced(s) && Balanced(t) && t.enqueued == s.enqueued && t.executed == s.executed
    requires t.dropped == s.dropped
    ensures KeepsEntries(s, t, f)
  {
    hide Live;
    forall x | x in Live(s) ensures x in Live(t) {
      assert Live(s)[x] + s.executed[x] + s.dropped[x] == s.enqueued[x];
      assert Live(t)[x] + t.executed[x] + t.dropped[x] == t.enqueued[x];
    }
  }

  lemma MoreBooks(s: State, t: State, e: Task, f: nat)
    requires Balanced(s) && Balanced(t) && t.enqueued == s.enqueued + multiset{e} && t.executed == s.executed
    requires t.dropped == s.dropped
    ensures KeepsEntries(s, t, f) && e in Live(t)
  {
    hide Live;
    forall x | x in Live(s) || x == e ensures x in Live(t) {
      assert Live(s)[x] + s.executed[x] + s.dropped[x] == s.enqueued[x];
      assert Live(t)[x] + t.executed[x] + t.dropped[x] == t.enqueued[x];
    }
  }

  // popLocalTask only throws entries of EXEC fibers away.
  lemma DrawKeepsEntries(s: State, w: nat, f: nat)
    requires Ledger(s) && Enabled(s, DrawLocal(w)) && IsReady(s, f) && Balanced(DoDrawLocal(s, w))
    ensures KeepsEntries(s, DoDrawLocal(s, w), f)
  {
    hide Live, PopLocal;
    var t := DoDrawLocal(s, w);
    var r := PopLocal(s.locals[s.workers[w].proc], s.fibers);
    PopLocalExact(s.locals[s.workers[w].proc], s.fibers);
    forall x | x in Live(s) && For(x, f) ensures x in Live(t) {
      assert x !in r.dropped;
      assert Live(s)[x] + s.executed[x] + s.dropped[x] == s.enqueued[x];
      assert Live(t)[x] + t.executed[x] + t.dropped[x] == t.enqueued[x];
    }
  }

  // A chosen entry's fiber is claimed; other entries stay.
  lemma AccountKeepsEntries(s: State, w: nat, f: nat)
    requires Ledger(s) && Enabled(s, Account(w)) && Balanced(DoAccount(s, w))
    ensures Free(DoAccount(s, w), f) ==> KeepsEntries(s, DoAccount(s, w), f)
  {
    hide Live;
    var t := DoAccount(s, w);
    var e := s.workers[w].phase.task;
    if For(e, f) {
      assert At(t, w) && t.workers[w].phase == Chosen(e);
      NotFree(t, w, f);
    } else {
      forall x | x in Live(s) && For(x, f) ensures x in Live(t) {
        assert Live(s)[x] + s.executed[x] + s.dropped[x] == s.enqueued[x];
        assert Live(t)[x] + t.executed[x] + t.dropped[x] == t.enqueued[x];
      }
    }
  }

  // ---- every step ----

  // Of the fibers that are READY and free after a step of worker w, it had none, and no entry
  // of them was lost.
  lemma StepReady(s: State, t: State, w: nat)
    requires ReadyInv(s) && At(s, w) && |t.workers| == |s.workers| && t.workers == s.workers[w := t.workers[w]]
    requires OneCallback(t.workers[w])
    requires forall f :: IsReady(t, f) && Free(t, f) && !Entered(t, f) ==>
      IsReady(s, f) && !Claims(s.workers[w], f) && KeepsEntries(s, t, f)
    ensures ReadyInv(t)
  {
    hide Live, KeepsEntries;
    forall f | IsReady(t, f) && Free(t, f) ensures Entered(t, f) {
      if !Entered(t, f) {
        FreeBefore(s, t, w, f);
        EntersOn(s, t, f);
      }
    }
  }

  lemma EntersOn(s: State, t: State, f: nat)
    requires Entered(s, f) && KeepsEntries(s, t, f)
    ensures Entered(t, f)
  {
  }

  lemma FreeBefore(s: State, t: State, w: nat, f: nat)
    requires At(s, w) && |t.workers| == |s.workers| && t.workers == s.workers[w := t.workers[w]]
    requires Free(t, f) && !Claims(s.workers[w], f)
    ensures Free(s, f)
  {
    forall v | 0 <= v < |s.workers| ensures !Claims(s.workers[v], f) {
      if v != w {
        assert !Claims(t.workers[v], f);
      }
    }
  }

  lemma NotFree(t: State, w: nat, f: nat)
    requires At(t, w) && Claims(t.workers[w], f)
    ensures !Free(t, f)
  {
  }

  // Steps of a worker that only gain claims, and change no fiber state and no history.
  lemma CalmReady(s: State, t: State, w: nat)
    requires ReadyInv(s) && Balanced(s) && Balanced(t) && At(s, w) && |t.workers| == |s.workers|
    requires t.workers == s.workers[w := t.workers[w]] && OneCallback(t.workers[w])
    requires t.fibers == s.fibers
    requires t.enqueued == s.enqueued && t.executed == s.executed && t.dropped == s.dropped
    requires forall f :: Claims(s.workers[w], f) ==> Claims(t.workers[w], f) || !IsReady(s, f)
    ensures ReadyInv(t)
  {
    hide Live, KeepsEntries, ReadyInv, Balanced, Free, Entered, Claims;
    forall f | IsReady(t, f) && Free(t, f)
      ensures IsReady(s, f) && !Claims(s.workers[w], f) && KeepsEntries(s, t, f)
    {
      SameBooks(s, t, f);
      if Claims(t.workers[w], f) {
        NotFree(t, w, f);
      }
    }
    StepReady(s, t, w);
  }

  // An executing fiber that gets another state stays claimed.
  lemma TurnReady(s: State, t: State, w: nat, g: nat)
    requires ReadyInv(s) && Balanced(s) && Balanced(t) && At(s, w) && |t.workers| == |s.workers|
    requires t.workers == s.workers[w := t.workers[w]] && OneCallback(t.workers[w])
    requires forall f :: f != g && IsReady(t, f) ==> IsReady(s, f)
    requires Claims(t.workers[w], g) || !IsReady(t, g)
    requires t.enqueued == s.enqueued && t.executed == s.executed && t.dropped == s.dropped
    requires forall f :: Claims(s.workers[w], f) ==> f == g || Claims(t.workers[w], f) || !IsReady(t, f)
    ensures ReadyInv(t)
  {
    hide Live, KeepsEntries, ReadyInv, Balanced, Free, Entered, Claims;
    forall f | IsReady(t, f) && Free(t, f)
      ensures IsReady(s, f) && !Claims(s.workers[w], f) && KeepsEntries(s, t, f)
    {
      SameBooks(s, t, f);
      if Claims(t.workers[w], f) {
        NotFree(t, w, f);
      }
    }
    StepReady(s, t, w);
  }

  lemma ReadyDraw(s: State, w: nat)
    requires Ledger(s) && ReadyInv(s) && Enabled(s, DrawLocal(w)) && Balanced(DoDrawLocal(s, w))
    ensures ReadyInv(DoDrawLocal(s, w))
  {
    hide Live, KeepsEntries, ReadyInv, Balanced, Free, Entered, Owners, Affine, PopLocal;
    var t := DoDrawLocal(s, w);
    forall f | IsReady(t, f) && Free(t, f)
      ensures IsReady(s, f) && !Claims(s.workers[w], f) && KeepsEntries(s, t, f)
    {
      DrawKeepsEntries(s, w, f);
      if Claims(t.workers[w], f) {
        NotFree(t, w, f);
      }
    }
    StepReady(s, t, w);
  }

  lemma ReadyAccount(s: State, w: nat)
    requires Ledger(s) && ReadyInv(s) && Enabled(s, Account(w)) && Balanced(DoAccount(s, w))
    ensures ReadyInv(DoAccount(s, w))
  {
    hide Live, KeepsEntries, ReadyInv, Balanced, Free, Entered, Owners, Affine, CountDraw;
    var t := DoAccount(s, w);
    forall f | IsReady(t, f) && Free(t, f)
      ensures IsReady(s, f) && !Claims(s.workers[w], f) && KeepsEntries(s, t, f)
    {
      AccountKeepsEntries(s, w, f);
      if Claims(t.workers[w], f) {
        NotFree(t, w, f);
      }
    }
    StepReady(s, t, w);
  }

  lemma ReadyEnqueue(s: State, t: State, e: Task)
    requires ReadyInv(s) && Balanced(s) && Balanced(t) && t.workers == s.workers
    requires forall f :: IsReady(t, f) ==> IsReady(s, f)
    requires t.enqueued == s.enqueued + multiset{e} && t.executed == s.executed && t.dropped == s.dropped
    ensures ReadyInv(t)
  {
    hide Live, KeepsEntries, Balanced, Entered;
    forall f | IsReady(t, f) && Free(t, f) ensures Entered(t, f) {
      MoreBooks(s, t, e, f);
      assert Free(s, f);
      EntersOn(s, t, f);
    }
  }

  lemma ReadyRequeue(s: State, t: State, w: nat)
    requires Ledger(s) && ReadyInv(s) && At(s, w) && s.workers[w].phase.Settling? && t == DoRequeue(s, w) && Balanced(t)
    ensures ReadyInv(t)
  {
    hide Live, KeepsEntries, ReadyInv, Balanced, Free, Owners, Affine;
    var g := s.workers[w].phase.fiber;
    var e := Task(FiberWork(g), -1, ByWorker(w));
    forall f | IsReady(t, f) && Free(t, f) && !Entered(t, f)
      ensures IsReady(s, f) && !Claims(s.workers[w], f) && KeepsEntries(s, t, f)
    {
      MoreBooks(s, t, e, f);
      assert For(e, g);
      if Claims(t.workers[w], f) {
        NotFree(t, w, f);
      }
    }
    StepReady(s, t, w);
  }

  lemma ReadySettle(s: State, t: State, w: nat)
    requires Ledger(s) && ReadyInv(s) && At(s, w) && s.workers[w].phase.Settling? && t == DoSettle(s, w) && Ledger(t)
    ensures ReadyInv(t)
  {
    hide Live, Owners, Affine, Balanced, DoRequeue, Entered, Free;
    var g := s.workers[w].phase.fiber;
    if StateOf(s.fibers, g) == Ready {
      ReadyRequeue(s, t, w);
    } else {
      TurnReady(s, t, w, g);
    }
  }

  // Steps that are neither local draws nor settle anything.
  lemma ReadyOther(s: State, t: State, w: nat)
    requires Ledger(s) && ReadyInv(s) && Ledger(t) && At(s, w)
    requires
      || (s.workers[w].phase.Outside? && t == DoEnterRun(s, w))
      || (s.workers[w].phase.Chosen? && !Alive(s.workers[w].phase.task.work, s.fibers) && t == DoSkipDead(s, w))
      || (s.workers[w].phase.Splicing? && t == DoSplice(s, w))
    ensures ReadyInv(t)
  {
    hide Live, Owners, Affine, Balanced, ReadyInv, ActiveExact, Cursor;
    CalmReady(s, t, w);
  }

  lemma ReadySwitchBack(s: State, t: State, w: nat)
    requires Ledger(s) && ReadyInv(s) && Ledger(t) && At(s, w)
    requires s.workers[w].phase.SwitchedOut? && t == DoSwitchBack(s, w)
    ensures ReadyInv(t)
  {
    hide Live, Owners, Affine, Balanced, Entered, Free, ActiveExact;
    CalmReady(s, t, w);
  }

  lemma ReadyBeginSteal(s: State, t: State, w: nat)
    requires Ledger(s) && ReadyInv(s) && Ledger(t) && At(s, w)
    requires s.workers[w].phase.AskSteal? && t == DoBeginSteal(s, w)
    ensures ReadyInv(t)
  {
    hide Live, Owners, Affine, Balanced, ReadyInv, ActiveExact, Cursor;
    CalmReady(s, t, w);
  }

  lemma ReadyPull(s: State, t: State, w: nat)
    requires Ledger(s) && ReadyInv(s) && Ledger(t) && At(s, w)
    requires s.workers[w].phase.AskGlobal? && t == DoDrawGlobal(s, w)
    ensures ReadyInv(t)
  {
    hide Live, Owners, Affine, Balanced, ReadyInv, ActiveExact, PopGlobal;
    CalmReady(s, t, w);
  }

  lemma ReadyTry(s: State, t: State, w: nat)
    requires Ledger(s) && ReadyInv(s) && Ledger(t) && At(s, w)
    requires s.workers[w].phase.Stealing? && t == DoTryVictim(s, w)
    ensures ReadyInv(t)
  {
    hide Live, Owners, Affine, Balanced, ReadyInv, ActiveExact, Steal, Cursor;
    CalmReady(s, t, w);
  }

  lemma ReadyIdle(s: State, t: State, w: nat)
    requires Ledger(s) && ReadyInv(s) && Ledger(t) && At(s, w)
    requires
      || (s.workers[w].phase.IdleWork? && t == SetPhase(s, w, Top))
      || (s.workers[w].phase.NoTask? && (t == SetPhase(s, w, IdleWork) || t == DoIdle(s, w)))
    ensures ReadyInv(t)
  {
    hide Live, Owners, Affine, Balanced, ReadyInv, ActiveExact;
    CalmReady(s, t, w);
  }

  lemma ReadyCheck(s: State, t: State, w: nat)
    requires Ledger(s) && ReadyInv(s) && Ledger(t) && At(s, w)
    requires s.workers[w].phase.CheckLocals? && t == DoCheckLocal(s, w)
    ensures ReadyInv(t)
  {
    hide Live, Owners, Affine, Balanced, ReadyInv, ActiveExact;
    CalmReady(s, t, w);
  }

  lemma ReadyFiberSteps(s: State, step: Step)
    requires Ledger(s) && ReadyInv(s) && Enabled(s, step) && Ledger(Apply(s, step))
    requires step.Resume? || step.YieldHold? || step.YieldReady? || step.Finish?
    ensures ReadyInv(Apply(s, step))
  {
    hide Live, Owners, Affine, Balanced, Entered, Free;
    var wk := s.workers[step.w];
    TurnReady(s, Apply(s, step), step.w, if step.Resume? then ResumeTarget(wk, step.spare) else wk.phase.fiber);
  }

  lemma ReadyEnqueueStep(s: State, t: State, caller: Option<nat>, work: Work, thread: int, forceGlobal: bool)
    requires Ledger(s) && ReadyInv(s) && Enabled(s, Enqueue(caller, work, thread, forceGlobal)) && Ledger(t)
    requires t == DoEnqueue(s, caller, work, thread, forceGlobal)
    ensures ReadyInv(t)
  {
    hide Live, Owners, Affine, Balanced, Entered, ReadyInv;
    ReadyEnqueue(s, t, Task(work, thread, if caller.Some? then ByWorker(caller.value) else External(!StopSet(s))));
  }

  lemma ReadyKept(s: State, step: Step)
    requires Ledger(s) && ReadyInv(s) && Enabled(s, step)
    ensures ReadyInv(Apply(s, step))
  {
    hide Live, Owners, Affine, Balanced, Entered, ReadyInv, DoBeginSteal, SetPhase;
    hide DoDrawLocal, DoDrawGlobal, DoTryVictim, DoSplice, DoAccount, DoRequeue, DoEnterRun, DoEnqueue;
    hide DoStealStarts, DoStealAlone, DoCheckLocal, DoIdle, DoSettle, DoYield, DoResume, DoSkipDead, DoSwitchBack;
    LedgerKept(s, step);
    var t := Apply(s, step);
    match step
    case Start => ReadyFlags(s, t);
    case RaiseAutoStop => ReadyFlags(s, t);
    case RaiseStopping => ReadyFlags(s, t);
    case GrantWake(w) => ReadyFlags(s, t);
    case Enqueue(caller, work, thread, forceGlobal) => ReadyEnqueueStep(s, t, caller, work, thread, forceGlobal);
    case DrawLocal(w) => ReadyDraw(s, w);
    case DrawGlobal(w) => ReadyPull(s, t, w);
    case TryVictim(w) => ReadyTry(s, t, w);
    case Account(w) => ReadyAccount(s, w);
    case Settle(w) => ReadySettle(s, t, w);
    case Resume(w, spare) => ReadyFiberSteps(s, step);
    case YieldHold(w) => ReadyFiberSteps(s, step);
    case YieldReady(w) => ReadyFiberSteps(s, step);
    case Finish(w, failed) => ReadyFiberSteps(s, step);
    case Idle(w) => ReadyIdle(s, t, w);
    case RefuseStop(w) => ReadyIdle(s, t, w);
    case CheckLocal(w) => ReadyCheck(s, t, w);
    case LeaveIdle(w) => ReadyIdle(s, t, w);
    case SwitchBack(w) => ReadySwitchBack(s, t, w);
    case BeginSteal(w) => ReadyBeginSteal(s, t, w);
    case _ => ReadyOther(s, t, step.w);
  }

  lemma ReadyFlags(s: State, t: State)
    requires ReadyInv(s) && t == s.(stopping := t.stopping, autoStop := t.autoStop, tokens := t.tokens)
    ensures ReadyInv(t)
  {
    assert Live(t) == Live(s);
    forall f | IsReady(t, f) && Free(t, f) ensures Entered(t, f) {
      assert Free(s, f) && Entered(s, f);
    }
  }

  lemma {:induction false} RunKeepsReady(states: seq<State>, steps: seq<Step>, tids: seq<int>, i: nat)
    requires Run(states, steps, tids) && i < |states|
    ensures ReadyInv(states[i])
  {
    hide Ledger, Enabled, Apply;
    if i > 0 {
      RunKeepsReady(states, steps, tids, i - 1);
      RunKeepsLedger(states, steps, tids, i - 1);
      ReadyKept(states[i - 1], steps[i - 1]);
    }
  }

  // In every run a READY fiber that no worker has is queued or in flight, in a disciplined run
  // as one entry and no more.
  lemma ReadyIsQueued(states: seq<State>, steps: seq<Step>, tids: seq<int>, i: nat, f: nat)
    requires Run(states, steps, tids) && i < |states|
    requires f in states[i].fibers && states[i].fibers[f] == Ready
    requires forall w :: 0 <= w < |states[i].workers| ==> !Claims(states[i].workers[w], f)
    ensures exists t :: t in Live(states[i]) && For(t, f)
    ensures DisciplinedRun(states, steps, tids) ==>
      forall t, u :: t in Live(states[i]) && u in Live(states[i]) && For(t, f) && For(u, f) ==>
        t == u && Live(states[i])[t] == 1
  {
    hide Run, Live, Disciplined;
    RunKeepsReady(states, steps, tids, i);
    assert Free(states[i], f) && IsReady(states[i], f) && Entered(states[i], f);
    if DisciplinedRun(states, steps, tids) {
      RunKeepsFibers(states, steps, tids, i);
    }
  }
}
