// The steps of one worker, with nothing in between, do what the objects of SchedulerCore do.
module SchedulerSteps {
  import opened Options
  import opened SchedulerQueues
  import opened SchedulerMachine
  import SchedulerCore

  // The queues, the cursors and everything else but workers and counters.
  ghost predicate SameElse(s: State, t: State) {
    && t.tids == s.tids && t.fibers == s.fibers && t.tokens == s.tokens && t.active == s.active
    && t.nextProcessor == s.nextProcessor && t.autoStop == s.autoStop && t.stopping == s.stopping
    && t.globalScheduled == s.globalScheduled && t.enqueued == s.enqueued && t.executed == s.executed
    && t.dropped == s.dropped
  }

  // schedule(): an entry without a thread goes to the end of the calling worker's own queue
  // unless it is forced onto the global one; any other entry goes to the end of the global
  // queue. One counter moves, and no other queue.
  lemma EnqueueQueues(s: State, caller: Option<nat>, work: Work, thread: int, forceGlobal: bool)
    requires Shape(s) && Enabled(s, Enqueue(caller, work, thread, forceGlobal))
    ensures var t := Apply(s, Enqueue(caller, work, thread, forceGlobal));
      var e := Task(work, thread, if caller.Some? then ByWorker(caller.value) else External(!(s.autoStop && s.stopping)));
      if caller.Some? && thread == -1 && !forceGlobal then
        var p := s.workers[caller.value].proc;
        && t.locals == s.locals[p := s.locals[p] + [e]] && t.global == s.global
        && t.stats == s.stats[p := s.stats[p].(scheduled := s.stats[p].scheduled + 1)]
        && t.globalScheduled == s.globalScheduled
      else
        && t.global == s.global + [e] && t.locals == s.locals
        && t.globalScheduled == s.globalScheduled + 1 && t.stats == s.stats
  {
  }

  // popLocalTask: the own queue loses the entries that are busy and the first one that is not.
  lemma DrawLocalQueues(s: State, w: nat)
    requires Shape(s) && Enabled(s, DrawLocal(w))
    ensures var t, p := Apply(s, DrawLocal(w)), s.workers[w].proc;
      var r := PopLocal(s.locals[p], s.fibers);
      && t.locals == s.locals[p := r.rest] && t.global == s.global
      && t.workers[w].phase == (if r.got.Some? then Drawn(r.got.value, Local) else AskGlobal)
      && s.locals[p] == r.dropped + ToSeq(r.got) + r.rest
      && (r.got.None? ==> t.locals[p] == [])
  {
    hide PopLocal;
    PopLocalExact(s.locals[s.workers[w].proc], s.fibers);
  }

  // popGlobalTask: cutting the global queue and splicing the batch onto the own one.
  lemma PullAlone(s: State, w: nat)
    requires Shape(s) && Enabled(s, DrawGlobal(w))
    ensures var r, p := PopGlobal(s.global, s.tids[w], true, s.fibers), s.workers[w].proc;
      var t := Apply(s, DrawGlobal(w));
      if r.got.None? then t.global == s.global && t.locals == s.locals && t.workers[w].phase == AskSteal
      else
        && Shape(t) && Enabled(t, Splice(w))
        && var u := Apply(t, Splice(w));
           && u.global == r.rest && u.locals == s.locals[p := s.locals[p] + r.batch]
           && u.workers == s.workers[w := s.workers[w].(phase := Drawn(r.got.value, Global))]
           && u.stats == s.stats[p := s.stats[p].(
                globalPulled := s.stats[p].globalPulled + |r.batch| + 1, globalBatches := s.stats[p].globalBatches + 1)]
           && SameElse(s, u)
  {
    hide PopGlobal;
    var r := PopGlobal(s.global, s.tids[w], true, s.fibers);
    if r.got.None? {
      PopGlobalNone(s.global, s.tids[w], true, s.fibers);
    }
  }

  // ---- stealing ----

  predicate NothingFrom(s: State, w: nat, v: nat)
    requires Shape(s) && At(s, w) && v < |s.locals|
  {
    v == s.workers[w].proc || Steal(s.locals[v], s.fibers).stolen == []
  }

  // The k-th victim of the rotation that the cursor starts.
  function TurnOf(s: State, k: nat): (v: nat)
    requires Shape(s)
    ensures v < |s.locals|
  {
    (s.nextSteal % |s.locals| + k) % |s.locals|
  }

  function Tried(s: State, w: nat): seq<Stats>
    requires Shape(s) && At(s, w)
  {
    var p := s.workers[w].proc;
    s.stats[p := s.stats[p].(stealAttempts := s.stats[p].stealAttempts + 1)]
  }

  // The worker stands at the k-th victim of the rotation, and the ones before had nothing.
  ghost predicate Scanning(s: State, t: State, w: nat, k: nat) {
    && Shape(s) && At(s, w) && 1 < |s.locals| && k <= |s.locals|
    && t == s.(workers := s.workers[w := s.workers[w].(phase := Stealing(s.nextSteal % |s.locals|, k))],
               nextSteal := s.nextSteal + 1, stats := Tried(s, w))
    && forall j :: 0 <= j < k ==> NothingFrom(s, w, TurnOf(s, j))
  }

  lemma ScanStarts(s: State, w: nat)
    requires Shape(s) && Enabled(s, BeginSteal(w)) && 1 < |s.locals|
    ensures Scanning(s, Apply(s, BeginSteal(w)), w, 0)
  {
  }

  lemma ScanGoesOn(s: State, t: State, w: nat, k: nat)
    requires Scanning(s, t, w, k) && k < |s.locals| && NothingFrom(s, w, TurnOf(s, k))
    ensures Shape(t) && Enabled(t, TryVictim(w)) && Scanning(s, Apply(t, TryVictim(w)), w, k + 1)
  {
    hide Steal;
  }

  // What the loot of victim v leaves: the youngest stolen entry in hand, the rest at the end of
  // the thief's queue, the victim without them.
  ghost predicate Robbed(s: State, t: State, w: nat, v: nat)
    requires Shape(s) && At(s, w) && v < |s.locals|
  {
    var (r, p) := (Steal(s.locals[v], s.fibers), s.workers[w].proc);
    && r.stolen != [] && v != p
    && t.locals == s.locals[v := r.left][p := s.locals[p] + r.stolen[1..]] && t.global == s.global
    && t.workers == s.workers[w := s.workers[w].(phase := Drawn(r.stolen[0], Stolen))]
    && t.nextSteal == s.nextSteal + 1 && SameElse(s, t)
    && t.stats == Tried(s, w)[p := Tried(s, w)[p].(
         stolen := Tried(s, w)[p].stolen + |r.stolen|, stealBatches := Tried(s, w)[p].stealBatches + 1)]
  }

  lemma ScanFinds(s: State, t: State, w: nat, k: nat)
    requires Scanning(s, t, w, k) && k < |s.locals| && !NothingFrom(s, w, TurnOf(s, k))
    ensures Shape(t) && Enabled(t, TryVictim(w))
    ensures var u := Apply(t, TryVictim(w)); Shape(u) && Enabled(u, Splice(w)) && Robbed(s, Apply(u, Splice(w)), w, TurnOf(s, k))
  {
    hide Steal;
    var u := Apply(t, TryVictim(w));
    assert u.workers[w].phase.Splicing?;
  }

  // Nothing was found anywhere.
  ghost predicate Empty(s: State, t: State, w: nat)
    requires Shape(s) && At(s, w)
  {
    var p := s.workers[w].proc;
    t == s.(workers := s.workers[w := s.workers[w].(phase := NoTask)], nextSteal := s.nextSteal + 1,
            stats := Tried(s, w)[p := Tried(s, w)[p].(stealFails := Tried(s, w)[p].stealFails + 1)])
  }

  lemma ScanEnds(s: State, t: State, w: nat)
    requires Scanning(s, t, w, |s.locals|)
    ensures Shape(t) && Enabled(t, TryVictim(w))
    ensures Empty(s, Apply(t, TryVictim(w)), w) && Shape(Apply(t, TryVictim(w)))
  {
    hide Steal;
  }

  // n tries of worker w, one after another.
  ghost predicate Tries(s: State, t: State, w: nat, n: nat)
    decreases n
  {
    if n == 0 then s == t
    else Shape(s) && Enabled(s, TryVictim(w)) && Tries(Apply(s, TryVictim(w)), t, w, n - 1)
  }

  lemma {:induction false} OneMoreTry(s: State, t: State, w: nat, n: nat)
    requires Tries(s, t, w, n) && Shape(t) && Enabled(t, TryVictim(w))
    ensures Tries(s, Apply(t, TryVictim(w)), w, n + 1)
    decreases n
  {
    hide Apply, Enabled, Shape;
    if n > 0 {
      OneMoreTry(Apply(s, TryVictim(w)), t, w, n - 1);
    }
  }

  // stealTask: the worker tries the processors in rotation. It robs the first one that has
  // anything movable, by k + 1 tries and a splice; or it has tried all of them, and none has.
  lemma StealAlone(s: State, w: nat) returns (k: nat, t: State)
    requires Shape(s) && Enabled(s, BeginSteal(w)) && 1 < |s.locals|
    ensures Tries(Apply(s, BeginSteal(w)), t, w, k + 1) && Shape(t)
    ensures k <= |s.locals| && forall j :: 0 <= j < k ==> NothingFrom(s, w, TurnOf(s, j))
    ensures k < |s.locals| ==>
      !NothingFrom(s, w, TurnOf(s, k)) && Enabled(t, Splice(w)) && Robbed(s, Apply(t, Splice(w)), w, TurnOf(s, k))
    ensures k == |s.locals| ==> Empty(s, t, w) && forall v :: 0 <= v < |s.locals| ==> NothingFrom(s, w, v)
  {
    hide Apply, Enabled, Shape, NothingFrom, Scanning, Robbed, Empty;
    var first := Apply(s, BeginSteal(w));
    ScanStarts(s, w);
    t, k := first, 0;
    while k < |s.locals| && NothingFrom(s, w, TurnOf(s, k))
      invariant k <= |s.locals| && Scanning(s, t, w, k) && Tries(first, t, w, k)
      invariant forall j :: 0 <= j < k ==> NothingFrom(s, w, TurnOf(s, j))
      decreases |s.locals| - k
    {
      ScanGoesOn(s, t, w, k);
      OneMoreTry(first, t, w, k);
      t, k := Apply(t, TryVictim(w)), k + 1;
    }
    if k < |s.locals| {
      ScanFinds(s, t, w, k);
    } else {
      ScanEnds(s, t, w);
      AllTried(s, w);
    }
    OneMoreTry(first, t, w, k);
    t := Apply(t, TryVictim(w));
  }

  // A worker without colleagues fails at once, and the cursor stays.
  lemma StealFromNobody(s: State, w: nat)
    requires Shape(s) && Enabled(s, BeginSteal(w)) && |s.locals| <= 1
    ensures var p := s.workers[w].proc;
      Apply(s, BeginSteal(w)) == s.(workers := s.workers[w := s.workers[w].(phase := NoTask)],
        stats := s.stats[p := s.stats[p].(stealAttempts := s.stats[p].stealAttempts + 1, stealFails := s.stats[p].stealFails + 1)])
  {
  }

  lemma AllTried(s: State, w: nat)
    requires Shape(s) && At(s, w) && forall j :: 0 <= j < |s.locals| ==> NothingFrom(s, w, TurnOf(s, j))
    ensures forall v :: 0 <= v < |s.locals| ==> NothingFrom(s, w, v)
  {
    hide NothingFrom;
    forall v: nat | v < |s.locals| ensures NothingFrom(s, w, v) {
      var j := SchedulerCore.RotationReaches(s.nextSteal % |s.locals|, v, |s.locals|);
      assert TurnOf(s, j) == v;
    }
  }

  // ---- a chosen entry ----

  // An entry whose fiber has ended is skipped and never resumed; any other one is never skipped.
  // It runs its own fiber; a callback runs in the fiber kept from the last one, else in a new
  // one. swapIn goes through exactly when that fiber is not EXEC.
  lemma ChosenDecides(s: State, w: nat, spare: nat)
    requires Shape(s) && At(s, w) && s.workers[w].phase.Chosen? && spare !in s.fibers
    ensures var (work, kept) := (s.workers[w].phase.task.work, s.workers[w].cbFiber);
      var ended := work.FiberWork? && work.fiber in s.fibers && s.fibers[work.fiber] in {Term, Except};
      var f := if work.FiberWork? then work.fiber else if kept.Some? then kept.value else spare;
      && (Enabled(s, SkipDead(w)) <==> ended)
      && (Enabled(s, Resume(w, spare)) <==> !ended && (f in s.fibers ==> s.fibers[f] != Exec))
      && (Enabled(s, Resume(w, spare)) ==>
            && Apply(s, Resume(w, spare)).fibers == s.fibers[f := Exec]
            && Apply(s, Resume(w, spare)).workers[w].phase == Running(f, work.CallbackWork?))
  {
  }

  // ---- leaving run() ----

  // Where a worker without a task goes: out, if its idle fiber has ended; to the scan of the
  // local queues, if both stop flags are up, nobody is active and the global queue is empty; else
  // to the work of the idle fiber.
  lemma IdleDecides(s: State, w: nat)
    requires Shape(s) && Enabled(s, Idle(w))
    ensures var t := Apply(s, Idle(w));
      && t == s.(workers := s.workers[w := s.workers[w].(phase := t.workers[w].phase)])
      && (t.workers[w].phase == Left <==> s.workers[w].idleDone)
      && (t.workers[w].phase == CheckLocals(0) <==>
            !s.workers[w].idleDone && s.autoStop && s.stopping && s.active == 0 && s.global == [])
      && (t.workers[w].phase == Left || t.workers[w].phase == CheckLocals(0) || t.workers[w].phase == IdleWork)
  {
  }

  // The scan: n processors looked at so far, one after another.
  ghost predicate Checks(s: State, t: State, w: nat, n: nat)
    decreases n
  {
    if n == 0 then s == t
    else Shape(s) && Enabled(s, CheckLocal(w)) && Checks(Apply(s, CheckLocal(w)), t, w, n - 1)
  }

  lemma {:induction false} OneMoreCheck(s: State, t: State, w: nat, n: nat)
    requires Checks(s, t, w, n) && Shape(t) && Enabled(t, CheckLocal(w))
    ensures Checks(s, Apply(t, CheckLocal(w)), w, n + 1)
    decreases n
  {
    hide Apply, Enabled, Shape;
    if n > 0 {
      OneMoreCheck(Apply(s, CheckLocal(w)), t, w, n - 1);
    }
  }

  function Looking(s: State, w: nat, i: nat): State
    requires At(s, w)
  {
    s.(workers := s.workers[w := s.workers[w].(phase := CheckLocals(i))])
  }

  lemma CheckStep(s: State, w: nat, i: nat)
    requires Shape(s) && At(s, w) && i < |s.locals|
    ensures var x := Looking(s, w, i);
      && Shape(x) && Enabled(x, CheckLocal(w))
      && Apply(x, CheckLocal(w)) ==
           if s.locals[i] != [] then s.(workers := s.workers[w := s.workers[w].(phase := IdleWork)])
           else if i + 1 < |s.locals| then Looking(s, w, i + 1)
           else s.(workers := s.workers[w := s.workers[w].(phase := Top, idleDone := true)])
  {
  }

  // The scan ends with the idle fiber done exactly when every local queue is empty; otherwise
  // it stops at the first one that is not, and the worker stays.
  lemma StopAlone(s: State, w: nat) returns (n: nat, t: State)
    requires Shape(s) && At(s, w)
    ensures Checks(Looking(s, w, 0), t, w, n) && 0 < n <= |s.locals|
    ensures if forall p :: 0 <= p < |s.locals| ==> s.locals[p] == [] then
        n == |s.locals| && t == s.(workers := s.workers[w := s.workers[w].(phase := Top, idleDone := true)])
      else
        && s.locals[n - 1] != [] && (forall p :: 0 <= p < n - 1 ==> s.locals[p] == [])
        && t == s.(workers := s.workers[w := s.workers[w].(phase := IdleWork)])
  {
    hide Apply, Enabled, Shape, Looking;
    assert 0 < |s.locals| by {
      ShapeSize(s);
    }
    var first := Looking(s, w, 0);
    t, n := first, 0;
    while n + 1 < |s.locals| && s.locals[n] == []
      invariant n < |s.locals| && t == Looking(s, w, n) && Checks(first, t, w, n)
      invariant forall p :: 0 <= p < n ==> s.locals[p] == []
      decreases |s.locals| - n
    {
      CheckStep(s, w, n);
      OneMoreCheck(first, t, w, n);
      t, n := Looking(s, w, n + 1), n + 1;
    }
    CheckStep(s, w, n);
    OneMoreCheck(first, t, w, n);
    t, n := Apply(t, CheckLocal(w)), n + 1;
  }

  lemma ShapeSize(s: State)
    requires Shape(s)
    ensures 0 < |s.locals|
  {
  }

  // ---- the stop flags ----

  // Only three steps touch the flags, and no step of a worker does.
  lemma FlagsStep(s: State, step: Step)
    requires Shape(s) && Enabled(s, step)
    ensures var t := Apply(s, step);
      && t.autoStop == (s.autoStop || step.RaiseAutoStop?)
      && t.stopping == (if step.Start? then false else s.stopping || step.RaiseStopping?)
    ensures step.Start? ==> !s.autoStop && s.stopping
    ensures step.RaiseStopping? ==> s.autoStop
  {
    hide DoDrawLocal, DoDrawGlobal, DoBeginSteal, DoTryVictim, DoSplice, DoAccount, DoSettle, DoIdle, DoCheckLocal;
    hide DoEnqueue, DoResume, DoYield, DoEnterRun, DoSkipDead, DoSwitchBack, SetPhase;
    match step
    case Start =>
    case RaiseAutoStop =>
    case RaiseStopping =>
    case Enqueue(caller, work, thread, forceGlobal) => EnqueueFlags(s, caller, work, thread, forceGlobal);
    case DrawGlobal(w) => DrawFlags(s, w);
    case TryVictim(w) => DrawFlags(s, w);
    case Settle(w) => SettleFlags(s, w);
    case _ => OtherFlags(s, step.w);
  }

  ghost predicate SameFlags(s: State, t: State) { t.autoStop == s.autoStop && t.stopping == s.stopping }

  lemma EnqueueFlags(s: State, caller: Option<nat>, work: Work, thread: int, forceGlobal: bool)
    requires Shape(s) && Enabled(s, Enqueue(caller, work, thread, forceGlobal))
    ensures SameFlags(s, DoEnqueue(s, caller, work, thread, forceGlobal))
  {
  }

  lemma DrawFlags(s: State, w: nat)
    requires Shape(s) && At(s, w)
    ensures SameFlags(s, DoDrawGlobal(s, w)) && (s.workers[w].phase.Stealing? ==> SameFlags(s, DoTryVictim(s, w)))
  {
    hide PopGlobal, Steal;
  }

  lemma SettleFlags(s: State, w: nat)
    requires Shape(s) && At(s, w)
    ensures s.workers[w].phase.Settling? ==> SameFlags(s, DoSettle(s, w))
  {
    hide StateOf;
  }

  lemma OtherFlags(s: State, w: nat)
    requires Shape(s) && At(s, w)
    ensures SameFlags(s, DoDrawLocal(s, w)) && SameFlags(s, DoBeginSteal(s, w)) && SameFlags(s, DoIdle(s, w))
    ensures SameFlags(s, DoEnterRun(s, w)) && SameFlags(s, DoSkipDead(s, w)) && forall p :: SameFlags(s, SetPhase(s, w, p))
    ensures s.workers[w].phase.Splicing? ==> SameFlags(s, DoSplice(s, w))
    ensures s.workers[w].phase.Drawn? ==> SameFlags(s, DoAccount(s, w))
    ensures s.workers[w].phase.Running? ==> forall a :: SameFlags(s, DoYield(s, w, a))
    ensures s.workers[w].phase.Chosen? ==> forall spare :: SameFlags(s, DoResume(s, w, spare))
    ensures s.workers[w].phase.SwitchedOut? ==> SameFlags(s, DoSwitchBack(s, w))
    ensures s.workers[w].phase.CheckLocals? ==> SameFlags(s, DoCheckLocal(s, w))
  {
    hide PopLocal, CountDraw;
  }

  // Some Start has come, and no RaiseStopping after it.
  ghost predicate Started(steps: seq<Step>, i: nat)
    requires i <= |steps|
  {
    exists k :: 0 <= k < i && steps[k].Start? && NoneSince(steps, k, i)
  }

  ghost predicate NoneSince(steps: seq<Step>, k: nat, i: nat)
    requires i <= |steps|
  {
    forall j :: k < j < i ==> !steps[j].RaiseStopping?
  }

  ghost predicate Asked(steps: seq<Step>, i: nat)
    requires i <= |steps|
  {
    exists k :: 0 <= k < i && steps[k].RaiseAutoStop?
  }

  // In every run m_autoStop is up exactly once stop() has raised it; m_stopping is up exactly
  // before start() and since stop() has raised it, which stop() does after m_autoStop.
  lemma {:induction false} FlagsExact(states: seq<State>, steps: seq<Step>, tids: seq<int>, i: nat)
    requires Run(states, steps, tids) && i < |states|
    ensures states[i].autoStop <==> Asked(steps, i)
    ensures states[i].stopping <==> !Started(steps, i)
    ensures i < |steps| && steps[i].RaiseStopping? ==> Asked(steps, i)
    decreases i
  {
    hide Apply, Enabled, Shape;
    if i == 0 {
    } else {
      FlagsExact(states, steps, tids, i - 1);
      FlagsStep(states[i - 1], steps[i - 1]);
      HistoryStep(steps, i - 1);
    }
    if i < |steps| {
      FlagsStep(states[i], steps[i]);
    }
  }

  lemma HistoryStep(steps: seq<Step>, i: nat)
    requires i < |steps|
    ensures Asked(steps, i + 1) <==> Asked(steps, i) || steps[i].RaiseAutoStop?
    ensures Started(steps, i + 1) <==> steps[i].Start? || (Started(steps, i) && !steps[i].RaiseStopping?)
  {
    if steps[i].Start? {
      assert NoneSince(steps, i, i + 1);
    } else if Started(steps, i) && !steps[i].RaiseStopping? {
      var k :| 0 <= k < i && steps[k].Start? && NoneSince(steps, k, i);
      assert NoneSince(steps, k, i + 1);
    } else if Started(steps, i + 1) {
      var k :| 0 <= k < i + 1 && steps[k].Start? && NoneSince(steps, k, i + 1);
      assert NoneSince(steps, k, i);
    }
  }
}
