// Shutdown: what is left in the queues once the workers have returned from run().
//
// stopping() alone proves nothing, because an entry may be in flight while it looks. What
// empties the queues is the extra round of draws that a worker makes between the end of its
// idle fiber and the break.
module SchedulerDrain {
  import opened Options
  import opened SchedulerQueues
  import opened SchedulerMachine
  import opened SchedulerLedger

  // The worker has ended its idle fiber and its last popGlobalTask found nothing.
  predicate PastFinal(wk: Worker) {
    wk.idleDone && (wk.phase.AskSteal? || wk.phase.Stealing? || wk.phase.NoTask? || wk.phase.Left?)
  }

  // The worker has seen its own queue empty and has not pushed to it since.
  predicate Dry(p: Phase) {
    p.AskGlobal? || p.AskSteal? || p.Stealing? || p.NoTask? || p.CheckLocals? || p.Left?
  }

  // Entries a shutdown may not lose: enqueued by a worker, or before stop().
  predicate Committed(t: Task) {
    !t.Pinned() && (t.origin.ByWorker? || t.origin.beforeStop)
  }

  predicate StopSeen(s: State) {
    forall w :: 0 <= w < |s.workers| ==>
      && (s.workers[w].idleDone ==> StopSet(s))
      && (s.workers[w].phase.Left? ==> s.workers[w].idleDone)
      && (s.workers[w].phase.CheckLocals? ==> StopSet(s))
  }

  // A fiber in state EXEC is on some worker.
  predicate ExecHeld(s: State) {
    forall f :: f in s.fibers && s.fibers[f] == Exec ==> Held(s, f)
  }

  predicate Held(s: State, f: nat) {
    exists w :: 0 <= w < |s.workers| && Executing(s.workers[w].phase) == Some(f)
  }

  predicate DryEmpty(s: State)
    requires Shape(s)
  {
    forall w :: 0 <= w < |s.workers| && Dry(s.workers[w].phase) ==> s.locals[s.workers[w].proc] == []
  }

  predicate StillPolling(wk: Worker) { !wk.phase.Outside? && !PastFinal(wk) }

  // Someone in run() still has a poll of the global queue ahead, or nobody is past it.
  predicate Attended(s: State) {
    || (exists w :: 0 <= w < |s.workers| && StillPolling(s.workers[w]))
    || (forall w :: 0 <= w < |s.workers| ==> !PastFinal(s.workers[w]))
  }

  predicate GlobalAttended(s: State) {
    (exists t :: t in s.global && Committed(t)) ==> Attended(s)
  }

  predicate DrainInv(s: State)
    requires Shape(s)
  {
    StopSeen(s) && ExecHeld(s) && DryEmpty(s) && GlobalAttended(s)
  }

  // ---- a step that moves worker w ----

  predicate ExecMoves(s: State, t: State, w: nat, wk: Worker)
    requires At(s, w)
  {
    forall f :: f in t.fibers && t.fibers[f] == Exec ==>
      || Executing(wk.phase) == Some(f)
      || (f in s.fibers && s.fibers[f] == Exec && Executing(s.workers[w].phase) != Some(f))
  }

  lemma ExecHeldMove(s: State, t: State, w: nat, wk: Worker)
    requires ExecHeld(s) && At(s, w) && t.workers == s.workers[w := wk] && ExecMoves(s, t, w, wk)
    ensures ExecHeld(t)
  {
    forall f | f in t.fibers && t.fibers[f] == Exec ensures Held(t, f) {
      if Executing(wk.phase) == Some(f) {
        assert t.workers[w] == wk;
      } else {
        assert Held(s, f);
        var v :| 0 <= v < |s.workers| && Executing(s.workers[v].phase) == Some(f);
        assert t.workers[v] == s.workers[v];
      }
    }
  }

  lemma DryMove(s: State, t: State, w: nat, wk: Worker, p: nat, q: seq<Task>)
    requires Shape(s) && Shape(t) && Owners(s) && DryEmpty(s) && At(s, w) && p < |s.locals|
    requires t.workers == s.workers[w := wk] && t.locals == s.locals[p := q]
    requires wk.proc == s.workers[w].proc && !s.workers[w].phase.Outside?
    requires p == wk.proc || s.locals[p] != []
    requires Dry(wk.phase) ==> t.locals[wk.proc] == []
    ensures DryEmpty(t)
  {
    forall v | 0 <= v < |t.workers| && Dry(t.workers[v].phase) ensures t.locals[t.workers[v].proc] == [] {
      if v != w {
        assert t.workers[v] == s.workers[v];
        assert s.workers[v].proc != wk.proc;
      }
    }
  }

  lemma AttendedMove(s: State, t: State, w: nat, wk: Worker)
    requires ExecHeld(s) && GlobalAttended(s) && At(s, w) && t.workers == s.workers[w := wk]
    requires wk.phase.Outside? <==> s.workers[w].phase.Outside?
    requires Executing(s.workers[w].phase).Some? ==> !PastFinal(wk)
    requires forall x :: x in t.global && Committed(x) ==> x in s.global || StillPolling(wk)
    requires PastFinal(wk) && !PastFinal(s.workers[w]) ==>
               forall x :: x in t.global && Committed(x) ==> Busy(x, s.fibers)
    ensures GlobalAttended(t)
  {
    if x :| x in t.global && Committed(x) {
      if StillPolling(wk) {
        assert StillPolling(t.workers[w]);
      } else if PastFinal(wk) && !PastFinal(s.workers[w]) {
        assert Held(s, x.work.fiber);
        var v :| 0 <= v < |s.workers| && Executing(s.workers[v].phase) == Some(x.work.fiber);
        assert StillPolling(t.workers[v]);
      } else {
        assert x in s.global && Attended(s);
        if v :| 0 <= v < |s.workers| && StillPolling(s.workers[v]) {
          assert v != w;
          assert StillPolling(t.workers[v]);
        } else {
          assert !PastFinal(s.workers[w]);
        }
      }
    }
  }

  // Everything at once, for steps that leave the stop flags alone.
  lemma DrainMove(s: State, t: State, w: nat, wk: Worker, p: nat, q: seq<Task>)
    requires Shape(s) && Shape(t) && Owners(s) && DrainInv(s) && At(s, w) && p < |s.locals|
    requires t.workers == s.workers[w := wk] && t.locals == s.locals[p := q]
    requires t.autoStop == s.autoStop && t.stopping == s.stopping
    requires wk.proc == s.workers[w].proc && !wk.phase.Outside? && !s.workers[w].phase.Outside?
    requires p == wk.proc || s.locals[p] != []
    requires Dry(wk.phase) ==> t.locals[wk.proc] == []
    requires wk.idleDone ==> StopSet(s)
    requires wk.phase.Left? ==> wk.idleDone
    requires wk.phase.CheckLocals? ==> StopSet(s)
    requires ExecMoves(s, t, w, wk)
    requires Executing(s.workers[w].phase).Some? ==> !PastFinal(wk)
    requires forall x :: x in t.global && Committed(x) ==> x in s.global || StillPolling(wk)
    requires PastFinal(wk) && !PastFinal(s.workers[w]) ==>
               forall x :: x in t.global && Committed(x) ==> Busy(x, s.fibers)
    ensures DrainInv(t)
  {
    hide Owners;
    ExecHeldMove(s, t, w, wk);
    DryMove(s, t, w, wk, p, q);
    AttendedMove(s, t, w, wk);
    assert StopSeen(t) by { hide ExecHeld, DryEmpty, GlobalAttended; }
  }

  // ---- each step ----

  // A step that touches no queue and no flag, on a worker that stays in the loop.
  lemma DrainQuiet(s: State, t: State, w: nat, wk: Worker)
    requires Ledger(s) && DrainInv(s) && Shape(t) && At(s, w)
    requires t.workers == s.workers[w := wk] && t.locals == s.locals && t.global == s.global
    requires t.autoStop == s.autoStop && t.stopping == s.stopping
    requires wk.proc == s.workers[w].proc && !wk.phase.Outside? && !s.workers[w].phase.Outside?
    requires Dry(wk.phase) ==> Dry(s.workers[w].phase)
    requires wk.idleDone ==> StopSet(s)
    requires wk.phase.Left? ==> wk.idleDone
    requires wk.phase.CheckLocals? ==> StopSet(s)
    requires ExecMoves(s, t, w, wk)
    requires PastFinal(wk) ==> PastFinal(s.workers[w])
    ensures DrainInv(t)
  {
    hide Owners, Affine, Balanced, StopSeen, ExecHeld, GlobalAttended;
    var p := wk.proc;
    assert t.locals == s.locals[p := s.locals[p]];
    DrainMove(s, t, w, wk, p, s.locals[p]);
  }

  lemma StopSeenAt(s: State, w: nat)
    requires Shape(s) && DrainInv(s) && At(s, w)
    ensures s.workers[w].idleDone || s.workers[w].phase.CheckLocals? ==> StopSet(s)
    ensures Dry(s.workers[w].phase) ==> s.locals[s.workers[w].proc] == []
  {
  }

  lemma DrainDrawLocal(s: State, w: nat)
    requires Ledger(s) && DrainInv(s) && At(s, w) && s.workers[w].phase.Top?
    requires Shape(DoDrawLocal(s, w))
    ensures DrainInv(DoDrawLocal(s, w))
  {
    hide Owners, Affine, Balanced, StopSeen, ExecHeld, DryEmpty, GlobalAttended, PopLocal;
    StopSeenAt(s, w);
    var t := DoDrawLocal(s, w);
    var p := s.workers[w].proc;
    PopLocalExact(s.locals[p], s.fibers);
    DrainMove(s, t, w, t.workers[w], p, t.locals[p]);
  }

  lemma DrainPull(s: State, w: nat, r: GlobalPop)
    requires Ledger(s) && DrainInv(s) && At(s, w) && s.workers[w].phase.AskGlobal? && r.got.Some?
    requires forall x :: x in r.rest ==> x in s.global
    requires Shape(DoPull(s, w, r))
    ensures DrainInv(DoPull(s, w, r))
  {
    hide Owners, Affine, Balanced, StopSeen, ExecHeld, DryEmpty, GlobalAttended;
    StopSeenAt(s, w);
    var t := DoPull(s, w, r);
    var p := s.workers[w].proc;
    assert t.locals == s.locals[p := s.locals[p]];
    DrainMove(s, t, w, t.workers[w], p, s.locals[p]);
  }

  lemma PullRest(q: seq<Task>, me: int, fibers: FiberTable)
    ensures forall x :: x in PopGlobal(q, me, true, fibers).rest ==> x in q
  {
    PopGlobalBag(q, me, true, fibers);
    forall x | x in PopGlobal(q, me, true, fibers).rest ensures x in q { assert x in multiset(q); }
  }

  // The decisive step: a worker whose idle fiber has ended finds nothing in the global
  // queue. An unpinned entry it had to leave behind is busy on another worker.
  lemma DrainDrawGlobal(s: State, w: nat)
    requires Ledger(s) && DrainInv(s) && At(s, w) && s.workers[w].phase.AskGlobal?
    requires Shape(DoDrawGlobal(s, w))
    ensures DrainInv(DoDrawGlobal(s, w))
  {
    hide Owners, Affine, Balanced, StopSeen, ExecHeld, DryEmpty, GlobalAttended, PopGlobal;
    StopSeenAt(s, w);
    var r := PopGlobal(s.global, s.tids[w], true, s.fibers);
    if r.got.Some? {
      PullRest(s.global, s.tids[w], s.fibers);
      DrainPull(s, w, r);
    } else {
      PopGlobalNone(s.global, s.tids[w], true, s.fibers);
      var t := SetPhase(s, w, AskSteal);
      var p := s.workers[w].proc;
      assert t.locals == s.locals[p := s.locals[p]];
      DrainMove(s, t, w, t.workers[w], p, s.locals[p]);
    }
  }

  lemma DrainLoot(s: State, w: nat, v: nat, r: Loot)
    requires Ledger(s) && DrainInv(s) && At(s, w) && s.workers[w].phase.Stealing? && v < |s.locals|
    requires r.stolen != [] && s.locals[v] != []
    requires Shape(DoLoot(s, w, v, r))
    ensures DrainInv(DoLoot(s, w, v, r))
  {
    hide Owners, Affine, Balanced, StopSeen, ExecHeld, DryEmpty, GlobalAttended;
    StopSeenAt(s, w);
    var t := DoLoot(s, w, v, r);
    DrainMove(s, t, w, t.workers[w], v, r.left);
  }

  lemma DrainTryVictim(s: State, w: nat)
    requires Ledger(s) && DrainInv(s) && At(s, w) && s.workers[w].phase.Stealing?
    requires Shape(DoTryVictim(s, w))
    ensures DrainInv(DoTryVictim(s, w))
  {
    hide Owners, Affine, Balanced, StopSeen, ExecHeld, DryEmpty, GlobalAttended, Steal;
    StopSeenAt(s, w);
    var t := DoTryVictim(s, w);
    var ph := s.workers[w].phase;
    if ph.offset < |s.locals| {
      var v := Victim(s, ph);
      var r := Steal(s.locals[v], s.fibers);
      if v != s.workers[w].proc && r.stolen != [] {
        StealMembers(s.locals[v], s.fibers);
        assert r.stolen[0] in s.locals[v];
        DrainLoot(s, w, v, r);
      } else {
        DrainQuiet(s, t, w, t.workers[w]);
      }
    } else {
      DrainQuiet(s, t, w, t.workers[w]);
    }
  }

  lemma DrainSplice(s: State, w: nat)
    requires Ledger(s) && DrainInv(s) && At(s, w) && s.workers[w].phase.Splicing?
    requires Shape(DoSplice(s, w))
    ensures DrainInv(DoSplice(s, w))
  {
    hide Owners, Affine, Balanced, StopSeen, ExecHeld, DryEmpty, GlobalAttended;
    StopSeenAt(s, w);
    var t := DoSplice(s, w);
    DrainMove(s, t, w, t.workers[w], s.workers[w].proc, t.locals[s.workers[w].proc]);
  }

  lemma DrainSettle(s: State, w: nat)
    requires Ledger(s) && DrainInv(s) && At(s, w) && s.workers[w].phase.Settling?
    requires Shape(DoSettle(s, w))
    ensures DrainInv(DoSettle(s, w))
  {
    hide Owners, Affine, Balanced, StopSeen, ExecHeld, DryEmpty, GlobalAttended;
    StopSeenAt(s, w);
    var t := DoSettle(s, w);
    if StateOf(s.fibers, s.workers[w].phase.fiber) == Ready {
      DrainMove(s, t, w, t.workers[w], s.workers[w].proc, t.locals[s.workers[w].proc]);
    } else {
      DrainQuiet(s, t, w, t.workers[w]);
    }
  }

  // An entry of an outside thread counts as committed only before the stop flags are up,
  // and then no idle fiber can have ended.
  lemma DrainPush(s: State, t: State, x: Task, caller: Option<nat>)
    requires Ledger(s) && DrainInv(s) && Shape(t)
    requires t.workers == s.workers && t.locals == s.locals && t.global == s.global + [x]
    requires t.autoStop == s.autoStop && t.stopping == s.stopping
    requires forall f :: f in t.fibers && t.fibers[f] == Exec ==> f in s.fibers && s.fibers[f] == Exec
    requires caller.Some? ==> At(s, caller.value) && StillPolling(s.workers[caller.value])
    requires caller.None? ==> x.origin == External(!StopSet(s))
    ensures DrainInv(t)
  {
    hide Owners, Affine, Balanced;
    assert ExecHeld(t) by {
      forall f | f in t.fibers && t.fibers[f] == Exec ensures Held(t, f) { assert Held(s, f); }
    }
    if y :| y in t.global && Committed(y) {
      if y in s.global {
        assert Attended(s);
      } else {
        assert y == x;
        if caller.Some? { assert StillPolling(t.workers[caller.value]); }
      }
    }
  }

  lemma DrainEnqueue(s: State, caller: Option<nat>, work: Work, thread: int, forceGlobal: bool)
    requires Ledger(s) && DrainInv(s) && Enabled(s, Enqueue(caller, work, thread, forceGlobal))
    requires Shape(DoEnqueue(s, caller, work, thread, forceGlobal))
    ensures DrainInv(DoEnqueue(s, caller, work, thread, forceGlobal))
  {
    hide Owners, Affine, Balanced, StopSeen, ExecHeld, DryEmpty, GlobalAttended;
    var t := DoEnqueue(s, caller, work, thread, forceGlobal);
    if caller.Some? && thread == -1 && !forceGlobal {
      var w := caller.value;
      StopSeenAt(s, w);
      assert t.workers == s.workers[w := s.workers[w]];
      DrainMove(s, t, w, s.workers[w], s.workers[w].proc, t.locals[s.workers[w].proc]);
    } else {
      var origin := if caller.Some? then ByWorker(caller.value) else External(!StopSet(s));
      DrainPush(s, t, Task(work, thread, origin), caller);
    }
  }

  lemma DrainEnterRun(s: State, w: nat)
    requires Ledger(s) && DrainInv(s) && At(s, w) && s.workers[w].phase.Outside?
    requires Shape(DoEnterRun(s, w))
    ensures DrainInv(DoEnterRun(s, w))
  {
    hide Owners, Affine, Balanced;
    var t := DoEnterRun(s, w);
    assert PastFinal(s.workers[w]) == PastFinal(t.workers[w]) == false;
    assert DryEmpty(t);
    assert ExecHeld(t) by {
      forall f | f in t.fibers && t.fibers[f] == Exec ensures Held(t, f) {
        assert Held(s, f);
        var v :| 0 <= v < |s.workers| && Executing(s.workers[v].phase) == Some(f);
        assert t.workers[v] == s.workers[v];
      }
    }
    assert Attended(t) by { assert StillPolling(t.workers[w]); }
  }

  lemma DrainFiberSteps(s: State, t: State, w: nat)
    requires Ledger(s) && DrainInv(s) && At(s, w) && Shape(t)
    requires
      || (s.workers[w].phase.Chosen? && (t == DoSkipDead(s, w) || exists spare: nat :: t == DoResume(s, w, spare)))
      || (s.workers[w].phase.Running? && exists state :: t == DoYield(s, w, state))
      || (s.workers[w].phase.SwitchedOut? && t == DoSwitchBack(s, w))
    ensures DrainInv(t)
  {
    hide Owners, Affine, Balanced, StopSeen, ExecHeld, DryEmpty, GlobalAttended;
    StopSeenAt(s, w);
    DrainQuiet(s, t, w, t.workers[w]);
  }

  lemma DrainQuietSteps(s: State, t: State, w: nat)
    requires Ledger(s) && DrainInv(s) && At(s, w) && Shape(t)
    requires
      || (s.workers[w].phase.Drawn? && t == DoAccount(s, w))
      || (s.workers[w].phase.AskSteal? && (t == DoStealAlone(s, w) || t == DoStealStarts(s, w)))
      || (s.workers[w].phase.IdleWork? && t == SetPhase(s, w, Top))
      || (s.workers[w].phase.NoTask? && t == SetPhase(s, w, IdleWork))
    ensures DrainInv(t)
  {
    hide Owners, Affine, Balanced, StopSeen, ExecHeld, DryEmpty, GlobalAttended;
    StopSeenAt(s, w);
    DrainQuiet(s, t, w, t.workers[w]);
  }

  lemma DrainIdle(s: State, w: nat)
    requires Ledger(s) && DrainInv(s) && At(s, w) && s.workers[w].phase.NoTask? && Shape(DoIdle(s, w))
    ensures DrainInv(DoIdle(s, w))
  {
    hide Owners, Affine, Balanced, StopSeen, ExecHeld, DryEmpty, GlobalAttended;
    StopSeenAt(s, w);
    var t := DoIdle(s, w);
    DrainQuiet(s, t, w, t.workers[w]);
  }

  lemma DrainCheckLocal(s: State, w: nat)
    requires Ledger(s) && DrainInv(s) && At(s, w) && s.workers[w].phase.CheckLocals? && Shape(DoCheckLocal(s, w))
    ensures DrainInv(DoCheckLocal(s, w))
  {
    hide Owners, Affine, Balanced, StopSeen, ExecHeld, DryEmpty, GlobalAttended;
    StopSeenAt(s, w);
    var t := DoCheckLocal(s, w);
    DrainQuiet(s, t, w, t.workers[w]);
  }

  lemma DrainFlags(s: State, t: State)
    requires Ledger(s) && DrainInv(s) && Shape(t)
    requires t == s.(stopping := t.stopping, autoStop := t.autoStop, tokens := t.tokens)
    requires StopSet(s) ==> StopSet(t)
    ensures DrainInv(t)
  {
    hide Owners, Affine, Balanced;
    assert ExecHeld(t) by {
      forall f | f in t.fibers && t.fibers[f] == Exec ensures Held(t, f) { assert Held(s, f); }
    }
    assert Attended(t) <==> Attended(s);
  }

  lemma DrainOthers(s: State, step: Step, t: State)
    requires Ledger(s) && DrainInv(s) && Enabled(s, step) && Shape(t) && t == Apply(s, step)
    requires step.BeginSteal? || step.Account? || step.SkipDead? || step.Resume? || step.YieldHold? || step.YieldReady?
          || step.Finish? || step.SwitchBack? || step.RefuseStop? || step.LeaveIdle?
    ensures DrainInv(t)
  {
    hide Owners, Affine, Balanced, StopSeen, ExecHeld, DryEmpty, GlobalAttended;
    hide DoAccount, DoStealStarts, DoStealAlone, DoYield, DoResume, DoSkipDead, DoSwitchBack;
    if step.BeginSteal? || step.Account? || step.RefuseStop? || step.LeaveIdle? {
      DrainQuietSteps(s, t, step.w);
    } else {
      DrainFiberSteps(s, t, step.w);
    }
  }

  lemma DrainKept(s: State, step: Step)
    requires Ledger(s) && DrainInv(s) && Enabled(s, step)
    ensures Shape(Apply(s, step)) && DrainInv(Apply(s, step))
  {
    hide Owners, Affine, Balanced, StopSeen, ExecHeld, DryEmpty, GlobalAttended;
    hide DoDrawLocal, DoDrawGlobal, DoTryVictim, DoSplice, DoAccount, DoRequeue, DoEnterRun, DoEnqueue;
    hide DoStealStarts, DoStealAlone, DoCheckLocal, DoIdle, DoSettle, DoYield, DoResume, DoSkipDead, DoSwitchBack;
    LedgerKept(s, step);
    var t := Apply(s, step);
    match step
    case EnterRun(w) => DrainEnterRun(s, w);
    case Enqueue(caller, work, thread, forceGlobal) => DrainEnqueue(s, caller, work, thread, forceGlobal);
    case DrawLocal(w) => DrainDrawLocal(s, w);
    case DrawGlobal(w) => DrainDrawGlobal(s, w);
    case TryVictim(w) => DrainTryVictim(s, w);
    case Splice(w) => DrainSplice(s, w);
    case Settle(w) => DrainSettle(s, w);
    case Idle(w) => DrainIdle(s, w);
    case CheckLocal(w) => DrainCheckLocal(s, w);
    case Start => DrainFlags(s, t);
    case RaiseAutoStop => DrainFlags(s, t);
    case RaiseStopping => DrainFlags(s, t);
    case GrantWake(w) => DrainFlags(s, t);
    case _ => DrainOthers(s, step, t);
  }

  lemma {:induction false} RunKeepsDrain(states: seq<State>, steps: seq<Step>, tids: seq<int>, i: nat)
    requires Run(states, steps, tids) && i < |states|
    ensures Ledger(states[i]) && DrainInv(states[i])
  {
    hide Ledger, Enabled, Apply;
    RunKeepsLedger(states, steps, tids, i);
    if i > 0 {
      RunKeepsDrain(states, steps, tids, i - 1);
      DrainKept(states[i - 1], steps[i - 1]);
    }
  }

  // Drain at shutdown. In every run, once all workers that entered run() have left it (and
  // at least one has), every local queue is empty, and no unpinned entry, fiber or callback,
  // that a worker enqueued or that was enqueued before stop() is left in the global queue.
  lemma DrainedAtShutdown(states: seq<State>, steps: seq<Step>, tids: seq<int>, i: nat, one: nat)
    requires Run(states, steps, tids) && i < |states|
    requires one < |states[i].workers| && states[i].workers[one].phase.Left?
    requires forall w :: 0 <= w < |states[i].workers| ==>
               states[i].workers[w].phase.Left? || states[i].workers[w].phase.Outside?
    ensures forall p :: 0 <= p < |states[i].locals| ==> states[i].locals[p] == []
    ensures forall t :: t in states[i].global ==> !Committed(t)
  {
    var s := states[i];
    RunKeepsDrain(states, steps, tids, i);
    forall p | 0 <= p < |s.locals| ensures s.locals[p] == [] {
      if p < s.nextProcessor { var w := OwnerOf(s, p); }
    }
    assert !Attended(s) by { assert PastFinal(s.workers[one]); }
  }
}
