// No fiber is ever resumed by two workers, provided each park hands out at most one wake-up.
//
// A wake-up may be enqueued while the fiber is still switching out: YieldToHold leaves the
// state at EXEC until run() sets HOLD, and no draw path returns an entry whose fiber is EXEC.
module SchedulerFibers {
  import opened Options
  import opened SchedulerQueues
  import opened SchedulerMachine
  import opened SchedulerLedger

  // What the argument looks at: fiber states, wake-ups not yet enqueued, the entries that
  // are queued or in flight, and the workers.
  datatype View = View(fibers: FiberTable, tokens: set<nat>, live: multiset<Task>, workers: seq<Worker>)

  function ViewOf(s: State): View { View(s.fibers, s.tokens, Live(s), s.workers) }

  predicate For(t: Task, f: nat) { t.work == FiberWork(f) }

  // No wake-up of f is registered, queued or in flight.
  ghost predicate NoWake(v: View, f: nat) {
    f !in v.tokens && forall t :: t in v.live ==> !For(t, f)
  }

  predicate IsExec(v: View, f: nat) { f in v.fibers && v.fibers[f] == Exec }

  // The discipline of the parking code: a fiber registers a wake-up only when none is
  // outstanding, only registered wake-ups (or brand-new fibers) are enqueued, and a fiber
  // with an outstanding wake-up parks with YieldToHold.
  ghost predicate Disciplined(s: State, step: Step)
    requires Shape(s) && Enabled(s, step)
  {
    match step
    case Enqueue(_, FiberWork(f), _, _) => f !in s.fibers || f in s.tokens
    case GrantWake(w) => NoWake(ViewOf(s), s.workers[w].phase.fiber)
    case YieldReady(w) => NoWake(ViewOf(s), s.workers[w].phase.fiber)
    case Finish(w, _) => NoWake(ViewOf(s), s.workers[w].phase.fiber)
    case _ => true
  }

  // Fibers a worker keeps without running them.
  predicate Reserves(wk: Worker, f: nat) {
    (wk.phase.Chosen? && For(wk.phase.task, f)) || wk.cbFiber == Some(f)
  }

  predicate Claims(wk: Worker, f: nat) { Executing(wk.phase) == Some(f) || Reserves(wk, f) }

  function InHand(p: Phase): Option<Task> {
    match p
    case Splicing(t, _, _) => Some(t)
    case Drawn(t, _) => Some(t)
    case _ => None
  }

  // At most one wake-up per fiber, and every fiber mentioned exists.
  ghost predicate WakeOnce(v: View) {
    && (forall t, f :: t in v.live && For(t, f) ==> v.live[t] == 1 && f !in v.tokens && f in v.fibers)
    && (forall t, u, f :: t in v.live && u in v.live && For(t, f) && For(u, f) ==> t == u)
    && (forall f :: f in v.tokens ==> f in v.fibers)
  }

  ghost predicate ClaimFits(v: View, wk: Worker) {
    && (forall f :: Claims(wk, f) ==> f in v.fibers)
    && (forall f :: Reserves(wk, f) ==> NoWake(v, f) && !IsExec(v, f))
    && (Executing(wk.phase).Some? ==>
          var f := Executing(wk.phase).value;
          && wk.cbFiber != Some(f)
          && (wk.phase.Running? ==> IsExec(v, f))
          && (!IsExec(v, f) ==> NoWake(v, f)))
    && (wk.phase.Chosen? && wk.phase.task.work.FiberWork? ==> wk.cbFiber != Some(wk.phase.task.work.fiber))
  }

  ghost predicate ClaimsFit(v: View) {
    && (forall w :: 0 <= w < |v.workers| ==> ClaimFits(v, v.workers[w]))
    && (forall i, j, f :: 0 <= i < |v.workers| && 0 <= j < |v.workers| && i != j ==>
          !(Claims(v.workers[i], f) && Claims(v.workers[j], f)))
  }

  ghost predicate Unclaimed(v: View, f: nat) {
    forall w :: 0 <= w < |v.workers| ==> !Claims(v.workers[w], f)
  }

  // A drawn entry belongs to the live entries, and its fiber is parked with nobody.
  ghost predicate HandFits(v: View, wk: Worker) {
    InHand(wk.phase).Some? ==>
      var t := InHand(wk.phase).value;
      && t in v.live
      && (forall f :: For(t, f) ==> !IsExec(v, f) && Unclaimed(v, f))
  }

  ghost predicate HandsFit(v: View) {
    forall w :: 0 <= w < |v.workers| ==> HandFits(v, v.workers[w])
  }

  ghost predicate FiberInv(v: View) { WakeOnce(v) && ClaimsFit(v) && HandsFit(v) }

  // Two workers never execute the same fiber.
  lemma NeverTwice(v: View, i: nat, j: nat, f: nat)
    requires FiberInv(v) && i < |v.workers| && j < |v.workers| && i != j
    requires Executing(v.workers[i].phase) == Some(f)
    ensures Executing(v.workers[j].phase) != Some(f)
  {
    assert Claims(v.workers[i], f) && !Claims(v.workers[j], f);
  }

  // The heart of the argument: an entry that is not busy belongs to a fiber nobody has.
  lemma NotBusyUnclaimed(v: View, t: Task, f: nat)
    requires WakeOnce(v) && ClaimsFit(v) && t in v.live && For(t, f) && !IsExec(v, f)
    ensures Unclaimed(v, f)
  {
    forall w | 0 <= w < |v.workers| ensures !Claims(v.workers[w], f) {
      assert ClaimFits(v, v.workers[w]);
    }
  }

  // ---- a step of worker w, in terms of the view ----

  // Nothing else changes: other workers, and the states of fibers other than f.
  ghost predicate OnlyFiber(a: View, b: View, f: nat) {
    && (forall g :: g in a.fibers ==> g in b.fibers)
    && (forall g :: g != f && g in b.fibers ==> g in a.fibers && b.fibers[g] == a.fibers[g])
  }

  // Fibers a worker may claim next: its own, the one of the entry in its hand, or a new one.
  predicate MayClaim(a: View, wk: Worker, g: nat) {
    Claims(wk, g) || g !in a.fibers || (InHand(wk.phase).Some? && For(InHand(wk.phase).value, g))
  }

  // A step that adds no wake-up: live entries only leave, tokens stay, and at most the fiber
  // f that worker w has claimed (or a new one) changes state.
  lemma MoveFibers(a: View, b: View, w: nat, wk: Worker, f: nat)
    requires FiberInv(a) && w < |a.workers| && b.workers == a.workers[w := wk]
    requires b.live <= a.live && b.tokens == a.tokens && OnlyFiber(a, b, f)
    requires b.fibers == a.fibers || Claims(a.workers[w], f) || f !in a.fibers
    requires forall g :: Claims(wk, g) ==> MayClaim(a, a.workers[w], g)
    requires ClaimFits(b, wk)
    requires InHand(wk.phase).Some? ==> InHand(wk.phase).value in b.live
    requires InHand(wk.phase).Some? ==> forall g :: For(InHand(wk.phase).value, g) ==>
               !IsExec(a, g) && b.fibers == a.fibers && !Claims(wk, g) && Unclaimed(a, g)
    requires forall v :: 0 <= v < |a.workers| && v != w && InHand(a.workers[v].phase).Some? ==>
               InHand(a.workers[v].phase).value in b.live
    requires forall g :: Claims(wk, g) && !Claims(a.workers[w], g) ==> NoWake(b, g)
    requires b.fibers != a.fibers ==> NoWake(a, f) || (Executing(a.workers[w].phase) == Some(f))
    ensures FiberInv(b)
  {
    assert WakeOnce(b);
    MoveClaims(a, b, w, wk, f);
    forall v | 0 <= v < |b.workers| ensures HandFits(b, b.workers[v]) {
      if v == w {
        if InHand(wk.phase).Some? {
          forall g | For(InHand(wk.phase).value, g) ensures Unclaimed(b, g) && !IsExec(b, g) {
            forall u | 0 <= u < |b.workers| ensures !Claims(b.workers[u], g) {}
          }
        }
      } else if InHand(b.workers[v].phase).Some? {
        var t := InHand(b.workers[v].phase).value;
        assert HandFits(a, a.workers[v]);
        forall g | For(t, g) ensures Unclaimed(b, g) && !IsExec(b, g) {
          assert !NoWake(b, g) && !NoWake(a, g);
          assert !Claims(a.workers[w], g);
          forall u | 0 <= u < |b.workers| ensures !Claims(b.workers[u], g) {}
        }
      }
    }
  }

  lemma MoveClaims(a: View, b: View, w: nat, wk: Worker, f: nat)
    requires WakeOnce(a) && ClaimsFit(a) && HandsFit(a) && w < |a.workers| && b.workers == a.workers[w := wk]
    requires b.live <= a.live && b.tokens == a.tokens && OnlyFiber(a, b, f)
    requires b.fibers == a.fibers || Claims(a.workers[w], f) || f !in a.fibers
    requires forall g :: Claims(wk, g) ==> MayClaim(a, a.workers[w], g)
    requires ClaimFits(b, wk)
    ensures ClaimsFit(b)
  {
    forall v | 0 <= v < |b.workers| ensures ClaimFits(b, b.workers[v]) {
      if v != w {
        assert ClaimFits(a, a.workers[v]);
        forall g | Claims(a.workers[v], g) ensures IsExec(b, g) == IsExec(a, g) && (NoWake(a, g) ==> NoWake(b, g)) {}
      }
    }
    forall i, j, g | 0 <= i < |b.workers| && 0 <= j < |b.workers| && i != j && Claims(b.workers[i], g)
      ensures !Claims(b.workers[j], g)
    {
      if i == w {
        NotOthers(a, w, j, g);
      } else if j == w {
        if Claims(wk, g) { NotOthers(a, w, i, g); }
      } else {
        assert Claims(a.workers[i], g);
      }
    }
  }

  lemma NotOthers(a: View, w: nat, j: nat, g: nat)
    requires ClaimsFit(a) && HandsFit(a) && w < |a.workers| && j < |a.workers| && j != w
    requires MayClaim(a, a.workers[w], g)
    ensures !Claims(a.workers[j], g)
  {
    if InHand(a.workers[w].phase).Some? && For(InHand(a.workers[w].phase).value, g) {
      assert HandFits(a, a.workers[w]);
    } else if g !in a.fibers {
      assert ClaimFits(a, a.workers[j]);
    }
  }

  // ---- the view of a scheduler step ----

  lemma LiveShrinks(s: State, t: State)
    requires Ledger(s) && Ledger(t)
    requires t.enqueued == s.enqueued && s.executed <= t.executed && s.dropped <= t.dropped
    ensures Live(t) <= Live(s)
  {
    hide Owners, Affine;
    forall x ensures Live(t)[x] <= Live(s)[x] {
      assert s.enqueued[x] == (Live(s) + s.executed + s.dropped)[x];
      assert t.enqueued[x] == (Live(t) + t.executed + t.dropped)[x];
    }
  }

  lemma NoWakeKept(a: View, b: View)
    requires b.live <= a.live && b.tokens == a.tokens
    ensures forall g :: NoWake(a, g) ==> NoWake(b, g)
  {
    forall g | NoWake(a, g) ensures NoWake(b, g) {
      forall t | t in b.live ensures !For(t, g) { assert t in a.live; }
    }
  }

  lemma {:induction false} InHandInFlight(ws: seq<Worker>, w: nat)
    requires w < |ws| && InHand(ws[w].phase).Some?
    ensures InHand(ws[w].phase).value in FlightAll(ws)
  {
    if w > 0 { InHandInFlight(ws[1..], w - 1); }
  }

  lemma HandsLive(s: State)
    ensures forall v :: 0 <= v < |s.workers| && InHand(s.workers[v].phase).Some? ==>
              InHand(s.workers[v].phase).value in Live(s)
  {
    forall v | 0 <= v < |s.workers| && InHand(s.workers[v].phase).Some?
      ensures InHand(s.workers[v].phase).value in Live(s)
    {
      InHandInFlight(s.workers, v);
    }
  }

  // Steps that neither enqueue nor register a wake-up.
  lemma StepFibers(s: State, t: State, w: nat, wk: Worker, f: nat)
    requires Ledger(s) && Ledger(t) && FiberInv(ViewOf(s)) && At(s, w)
    requires t.workers == s.workers[w := wk] && t.tokens == s.tokens
    requires t.enqueued == s.enqueued && s.executed <= t.executed && s.dropped <= t.dropped
    requires OnlyFiber(ViewOf(s), ViewOf(t), f)
    requires t.fibers == s.fibers || Claims(s.workers[w], f) || f !in s.fibers
    requires forall g :: Claims(wk, g) ==> MayClaim(ViewOf(s), s.workers[w], g)
    requires ClaimFits(ViewOf(t), wk)
    requires InHand(wk.phase).Some? ==> t.fibers == s.fibers && forall g :: For(InHand(wk.phase).value, g) ==>
               !IsExec(ViewOf(s), g) && !Claims(wk, g) && Unclaimed(ViewOf(s), g)
    requires forall g :: Claims(wk, g) && !Claims(s.workers[w], g) ==> NoWake(ViewOf(t), g)
    requires t.fibers != s.fibers ==> NoWake(ViewOf(s), f) || Executing(s.workers[w].phase) == Some(f)
    ensures FiberInv(ViewOf(t))
  {
    hide Ledger, Live;
    LiveShrinks(s, t);
    HandsLive(t);
    var b := ViewOf(t);
    assert b.workers[w] == wk;
    assert forall v :: 0 <= v < |b.workers| && v != w ==> b.workers[v] == s.workers[v];
    MoveFibers(ViewOf(s), b, w, wk, f);
  }

  // Steps that change no fiber state and give w no new claim or entry.
  lemma StepQuiet(s: State, t: State, w: nat, wk: Worker)
    requires Ledger(s) && Ledger(t) && FiberInv(ViewOf(s)) && At(s, w)
    requires t.workers == s.workers[w := wk] && t.tokens == s.tokens && t.fibers == s.fibers
    requires t.enqueued == s.enqueued && s.executed <= t.executed && s.dropped <= t.dropped
    requires wk.cbFiber == s.workers[w].cbFiber
    requires !wk.phase.Running? && !wk.phase.Chosen?
    requires Executing(wk.phase).Some? ==> Executing(wk.phase) == Executing(s.workers[w].phase)
    requires InHand(wk.phase).Some? ==> InHand(wk.phase) == InHand(s.workers[w].phase)
    ensures FiberInv(ViewOf(t))
  {
    hide Ledger, Live;
    LiveShrinks(s, t);
    var a, b := ViewOf(s), ViewOf(t);
    NoWakeKept(a, b);
    assert ClaimFits(a, a.workers[w]) && HandFits(a, a.workers[w]);
    assert forall g :: Reserves(wk, g) ==> Reserves(s.workers[w], g);
    assert forall g :: Claims(wk, g) ==> Claims(s.workers[w], g);
    StepFibers(s, t, w, wk, 0);
  }

  // A draw: the entry was live and not busy.
  lemma StepDraw(s: State, t: State, w: nat, wk: Worker, x: Task)
    requires Ledger(s) && Ledger(t) && FiberInv(ViewOf(s)) && At(s, w)
    requires t.workers == s.workers[w := wk] && t.tokens == s.tokens && t.fibers == s.fibers
    requires t.enqueued == s.enqueued && s.executed <= t.executed && s.dropped <= t.dropped
    requires wk.cbFiber == s.workers[w].cbFiber && InHand(wk.phase) == Some(x)
    requires x in Live(s) && !Busy(x, s.fibers)
    ensures FiberInv(ViewOf(t))
  {
    hide Ledger, Live;
    LiveShrinks(s, t);
    var a, b := ViewOf(s), ViewOf(t);
    NoWakeKept(a, b);
    assert ClaimFits(a, a.workers[w]);
    assert forall g :: Reserves(wk, g) ==> Reserves(s.workers[w], g);
    assert forall g :: Claims(wk, g) ==> Claims(s.workers[w], g);
    forall g | For(x, g) ensures !IsExec(a, g) && !Claims(wk, g) && Unclaimed(a, g) {
      NotBusyUnclaimed(a, x, g);
      assert !Claims(s.workers[w], g);
    }
    StepFibers(s, t, w, wk, 0);
  }

  lemma StepAccount(s: State, t: State, w: nat)
    requires Ledger(s) && Ledger(t) && FiberInv(ViewOf(s)) && At(s, w) && s.workers[w].phase.Drawn?
    requires t == DoAccount(s, w)
    ensures FiberInv(ViewOf(t))
  {
    hide Ledger, Live;
    LiveShrinks(s, t);
    var a, b := ViewOf(s), ViewOf(t);
    NoWakeKept(a, b);
    var x := s.workers[w].phase.task;
    var wk := t.workers[w];
    assert ClaimFits(a, a.workers[w]) && HandFits(a, a.workers[w]);
    AccountTakes(s, t, x);
    forall g | For(x, g) ensures NoWake(b, g) && !IsExec(b, g) && g in b.fibers {}
    assert forall g :: Reserves(wk, g) <==> Reserves(s.workers[w], g) || For(x, g);
    assert forall g :: Claims(wk, g) <==> Claims(s.workers[w], g) || For(x, g);
    forall g | For(x, g) ensures !Claims(s.workers[w], g) { assert Unclaimed(a, g); }
    if x.work.FiberWork? { assert For(x, x.work.fiber); }
    StepFibers(s, t, w, wk, 0);
  }

  lemma AccountTakes(s: State, t: State, x: Task)
    requires Ledger(s) && Ledger(t)
    requires t.enqueued == s.enqueued && t.executed == s.executed + multiset{x} && t.dropped == s.dropped
    ensures Live(t) == Live(s) - multiset{x}
  {
    hide Owners, Affine;
    forall y ensures Live(t)[y] == (Live(s) - multiset{x})[y] {
      assert s.enqueued[y] == (Live(s) + s.executed + s.dropped)[y];
      assert t.enqueued[y] == (Live(t) + t.executed + t.dropped)[y];
    }
  }

  lemma StepResume(s: State, t: State, w: nat, spare: nat)
    requires Ledger(s) && Ledger(t) && FiberInv(ViewOf(s)) && At(s, w) && s.workers[w].phase.Chosen?
    requires s.workers[w].phase.task.work.CallbackWork? && s.workers[w].cbFiber.None? ==> spare !in s.fibers
    requires t == DoResume(s, w, spare)
    ensures FiberInv(ViewOf(t))
    ensures var f := ResumeTarget(s.workers[w], spare); f in s.fibers ==> s.fibers[f] != Exec
  {
    hide Ledger, Live;
    LiveShrinks(s, t);
    var a, b := ViewOf(s), ViewOf(t);
    NoWakeKept(a, b);
    var wk := s.workers[w];
    var f := ResumeTarget(wk, spare);
    assert ClaimFits(a, a.workers[w]);
    assert Reserves(wk, f) || f !in s.fibers;
    if f !in s.fibers {
      assert forall x :: x in a.live ==> !For(x, f);
    }
    assert NoWake(a, f);
    assert forall g :: Claims(t.workers[w], g) ==> Claims(wk, g) || g == f;
    var after := t.workers[w];
    assert Executing(after.phase) == Some(f) && IsExec(b, f) && after.cbFiber != Some(f);
    forall g | Reserves(after, g) ensures g != f && Reserves(wk, g) && g in b.fibers && NoWake(b, g) && !IsExec(b, g) {
      assert NoWake(a, g) && !IsExec(a, g);
    }
    assert ClaimFits(b, after);
    StepFibers(s, t, w, after, f);
  }

  lemma StepYield(s: State, t: State, w: nat, state: FiberState)
    requires Ledger(s) && Ledger(t) && FiberInv(ViewOf(s)) && At(s, w) && s.workers[w].phase.Running?
    requires t == DoYield(s, w, state)
    requires state != Exec ==> NoWake(ViewOf(s), s.workers[w].phase.fiber)
    ensures FiberInv(ViewOf(t))
  {
    hide Ledger, Live;
    LiveShrinks(s, t);
    var a, b := ViewOf(s), ViewOf(t);
    NoWakeKept(a, b);
    assert ClaimFits(a, a.workers[w]);
    assert forall g :: Reserves(t.workers[w], g) ==> Reserves(s.workers[w], g);
    assert forall g :: Claims(t.workers[w], g) <==> Claims(s.workers[w], g);
    StepFibers(s, t, w, t.workers[w], s.workers[w].phase.fiber);
  }

  // Letting go of a fiber: a finished callback fiber is kept as INIT, a parked one is HOLD.
  lemma StepRetire(s: State, t: State, w: nat)
    requires Ledger(s) && Ledger(t) && FiberInv(ViewOf(s)) && At(s, w) && s.workers[w].phase.Settling?
    requires t == DoRetire(s, w) && !IsExec(ViewOf(s), s.workers[w].phase.fiber) && s.workers[w].phase.isCallback
    ensures FiberInv(ViewOf(t))
  {
    hide Ledger, Live;
    LiveShrinks(s, t);
    var a, b := ViewOf(s), ViewOf(t);
    NoWakeKept(a, b);
    var f := s.workers[w].phase.fiber;
    assert ClaimFits(a, a.workers[w]);
    assert Claims(s.workers[w], f);
    assert forall g :: Claims(t.workers[w], g) <==> g == f;
    StepFibers(s, t, w, t.workers[w], f);
  }

  lemma StepPark(s: State, t: State, w: nat)
    requires Ledger(s) && Ledger(t) && FiberInv(ViewOf(s)) && At(s, w) && s.workers[w].phase.Settling?
    requires t == DoPark(s, w)
    ensures FiberInv(ViewOf(t))
  {
    hide Ledger, Live;
    LiveShrinks(s, t);
    var a, b := ViewOf(s), ViewOf(t);
    NoWakeKept(a, b);
    var f := s.workers[w].phase.fiber;
    assert ClaimFits(a, a.workers[w]);
    assert Claims(s.workers[w], f);
    var wk := t.workers[w];
    assert wk.cbFiber == s.workers[w].cbFiber && Executing(wk.phase).None? && InHand(wk.phase).None?;
    forall g | Claims(wk, g)
      ensures Reserves(s.workers[w], g) && g != f && g in b.fibers && NoWake(b, g) && !IsExec(b, g)
    {
      assert NoWake(a, g) && !IsExec(a, g);
    }
    assert ClaimFits(b, wk);
    StepFibers(s, t, w, wk, f);
  }

  // ---- steps that add a wake-up ----

  // A registered wake-up, or the first entry of a new fiber, joins the queues.
  lemma AddEntry(a: View, b: View, x: Task, f: nat)
    requires FiberInv(a) && For(x, f)
    requires b.workers == a.workers && b.live == a.live + multiset{x} && b.tokens == a.tokens - {f}
    requires OnlyFiber(a, b, f) && f in b.fibers
    requires forall t :: t in a.live ==> !For(t, f)
    requires forall w :: 0 <= w < |a.workers| && Claims(a.workers[w], f) ==>
               Executing(a.workers[w].phase) == Some(f) && IsExec(a, f) && !Reserves(a.workers[w], f)
    requires f in a.fibers ==> b.fibers == a.fibers
    ensures FiberInv(b)
  {
    assert WakeOnce(b);
    assert ClaimsFit(b) by {
      forall v | 0 <= v < |b.workers| ensures ClaimFits(b, b.workers[v]) {
        assert ClaimFits(a, a.workers[v]);
      }
    }
    forall v | 0 <= v < |b.workers| ensures HandFits(b, b.workers[v]) {
      assert HandFits(a, a.workers[v]);
    }
  }

  lemma SameLive(s: State, t: State)
    requires t.global == s.global && t.locals == s.locals && t.workers == s.workers
    ensures Live(t) == Live(s)
  {
  }

  // Registering a wake-up for the fiber that is running.
  lemma StepGrant(s: State, t: State, w: nat)
    requires Ledger(s) && FiberInv(ViewOf(s)) && At(s, w) && s.workers[w].phase.Running?
    requires t == s.(tokens := s.tokens + {s.workers[w].phase.fiber})
    requires NoWake(ViewOf(s), s.workers[w].phase.fiber)
    ensures FiberInv(ViewOf(t))
  {
    hide Ledger, Live;
    SameLive(s, t);
    var a, b := ViewOf(s), ViewOf(t);
    var f := s.workers[w].phase.fiber;
    assert ClaimFits(a, a.workers[w]) && Claims(a.workers[w], f);
    assert WakeOnce(b);
    forall v | 0 <= v < |b.workers| ensures ClaimFits(b, b.workers[v]) {
      assert ClaimFits(a, a.workers[v]);
      if v != w { assert !Claims(a.workers[v], f); }
    }
    forall v | 0 <= v < |b.workers| ensures HandFits(b, b.workers[v]) {
      assert HandFits(a, a.workers[v]);
    }
  }

  lemma LiveGrows(s: State, t: State, x: Task)
    requires Ledger(s) && Ledger(t)
    requires t.enqueued == s.enqueued + multiset{x} && t.executed == s.executed && t.dropped == s.dropped
    ensures Live(t) == Live(s) + multiset{x}
  {
    hide Owners, Affine;
    forall y ensures Live(t)[y] == (Live(s) + multiset{x})[y] {
      assert s.enqueued[y] == (Live(s) + s.executed + s.dropped)[y];
      assert t.enqueued[y] == (Live(t) + t.executed + t.dropped)[y];
    }
  }

  // READY: the fiber is let go of and its only wake-up is the entry pushed here.
  lemma StepRequeue(s: State, t: State, w: nat)
    requires Ledger(s) && Ledger(t) && FiberInv(ViewOf(s)) && At(s, w) && s.workers[w].phase.Settling?
    requires t == DoRequeue(s, w) && !IsExec(ViewOf(s), s.workers[w].phase.fiber)
    ensures FiberInv(ViewOf(t))
  {
    hide Ledger, Live;
    var f := s.workers[w].phase.fiber;
    var x := Task(FiberWork(f), -1, ByWorker(w));
    LiveGrows(s, t, x);
    HandsLive(s);
    var a := ViewOf(s);
    var wk := t.workers[w];
    var mid := a.(workers := a.workers[w := wk]);
    assert ClaimFits(a, a.workers[w]) && Claims(a.workers[w], f) && NoWake(a, f);
    assert forall g :: Reserves(wk, g) ==> Reserves(s.workers[w], g);
    assert forall g :: Claims(wk, g) ==> Reserves(s.workers[w], g) && g != f;
    MoveFibers(a, mid, w, wk, f);
    assert forall v :: 0 <= v < |mid.workers| ==> !Claims(mid.workers[v], f) by {
      forall v | 0 <= v < |mid.workers| ensures !Claims(mid.workers[v], f) {
        if v != w { assert !Claims(a.workers[v], f); }
      }
    }
    AddEntry(mid, ViewOf(t), x, f);
  }

  lemma StepEnqueueFiber(s: State, t: State, x: Task, f: nat)
    requires Ledger(s) && Ledger(t) && FiberInv(ViewOf(s)) && For(x, f)
    requires f !in s.fibers || f in s.tokens
    requires t.workers == s.workers && t.tokens == s.tokens - {f}
    requires t.fibers == if f in s.fibers then s.fibers else s.fibers[f := Init]
    requires t.enqueued == s.enqueued + multiset{x} && t.executed == s.executed && t.dropped == s.dropped
    ensures FiberInv(ViewOf(t))
  {
    hide Ledger, Live;
    LiveGrows(s, t, x);
    var a, b := ViewOf(s), ViewOf(t);
    forall w | 0 <= w < |a.workers| && Claims(a.workers[w], f)
      ensures Executing(a.workers[w].phase) == Some(f) && IsExec(a, f) && !Reserves(a.workers[w], f)
    {
      assert ClaimFits(a, a.workers[w]);
    }
    AddEntry(a, b, x, f);
  }

  lemma StepEnqueueCallback(s: State, t: State, x: Task)
    requires Ledger(s) && Ledger(t) && FiberInv(ViewOf(s)) && x.work.CallbackWork?
    requires t.workers == s.workers && t.tokens == s.tokens && t.fibers == s.fibers
    requires t.enqueued == s.enqueued + multiset{x} && t.executed == s.executed && t.dropped == s.dropped
    ensures FiberInv(ViewOf(t))
  {
    hide Ledger, Live;
    LiveGrows(s, t, x);
    var a, b := ViewOf(s), ViewOf(t);
    assert forall f :: !For(x, f);
    assert WakeOnce(b);
    forall v | 0 <= v < |b.workers| ensures ClaimFits(b, b.workers[v]) {
      assert ClaimFits(a, a.workers[v]);
    }
    forall v | 0 <= v < |b.workers| ensures HandFits(b, b.workers[v]) {
      assert HandFits(a, a.workers[v]);
    }
  }

  // ---- every disciplined step, every disciplined run ----

  lemma {:induction false} QueuedLive(qs: seq<seq<Task>>, p: nat, x: Task)
    requires p < |qs| && x in qs[p]
    ensures x in BagAll(qs)
  {
    if p > 0 { QueuedLive(qs[1..], p - 1, x); }
  }

  lemma FibersDrawLocal(s: State, t: State, w: nat)
    requires Ledger(s) && Ledger(t) && FiberInv(ViewOf(s)) && At(s, w) && s.workers[w].phase.Top?
    requires t == DoDrawLocal(s, w)
    ensures FiberInv(ViewOf(t))
  {
    hide FiberInv, PopLocal, Owners, Affine, Balanced, Live;
    var p := s.workers[w].proc;
    var r := PopLocal(s.locals[p], s.fibers);
    PopLocalExact(s.locals[p], s.fibers);
    if r.got.Some? {
      assert r.got.value in s.locals[p];
      LocalLive(s, p, r.got.value);
      StepDraw(s, t, w, t.workers[w], r.got.value);
    } else {
      StepQuiet(s, t, w, t.workers[w]);
    }
  }

  lemma FibersDrawGlobal(s: State, t: State, w: nat)
    requires Ledger(s) && Ledger(t) && FiberInv(ViewOf(s)) && At(s, w) && s.workers[w].phase.AskGlobal?
    requires t == DoDrawGlobal(s, w)
    ensures FiberInv(ViewOf(t))
  {
    hide FiberInv, PopGlobal, Owners, Affine, Balanced, Live;
    var r := PopGlobal(s.global, s.tids[w], true, s.fibers);
    if r.got.Some? {
      PullLive(s, w, r.got.value);
      StepDraw(s, t, w, t.workers[w], r.got.value);
    } else {
      StepQuiet(s, t, w, t.workers[w]);
    }
  }

  lemma PullLive(s: State, w: nat, x: Task)
    requires Shape(s) && At(s, w) && PopGlobal(s.global, s.tids[w], true, s.fibers).got == Some(x)
    ensures x in Live(s) && !Busy(x, s.fibers)
  {
    var at, cut := PopGlobalExact(s.global, s.tids[w], true, s.fibers);
    assert x in s.global;
  }

  lemma LocalLive(s: State, p: nat, x: Task)
    requires p < |s.locals| && x in s.locals[p]
    ensures x in Live(s)
  {
    QueuedLive(s.locals, p, x);
  }

  lemma FibersLoot(s: State, t: State, w: nat, v: nat)
    requires Ledger(s) && Ledger(t) && FiberInv(ViewOf(s)) && At(s, w) && s.workers[w].phase.Stealing?
    requires v < |s.locals| && Steal(s.locals[v], s.fibers).stolen != []
    requires t == DoLoot(s, w, v, Steal(s.locals[v], s.fibers))
    ensures FiberInv(ViewOf(t))
  {
    hide FiberInv, Steal, Owners, Affine, Balanced, Live;
    var r := Steal(s.locals[v], s.fibers);
    StealMembers(s.locals[v], s.fibers);
    assert r.stolen[0] in r.stolen;
    LocalLive(s, v, r.stolen[0]);
    StepDraw(s, t, w, t.workers[w], r.stolen[0]);
  }

  lemma FibersTryVictim(s: State, t: State, w: nat)
    requires Ledger(s) && Ledger(t) && FiberInv(ViewOf(s)) && At(s, w) && s.workers[w].phase.Stealing?
    requires t == DoTryVictim(s, w)
    ensures FiberInv(ViewOf(t))
  {
    hide FiberInv, Steal, Owners, Affine, Balanced, Live, DoLoot;
    var ph := s.workers[w].phase;
    if ph.offset < |s.locals| {
      var v := Victim(s, ph);
      if v != s.workers[w].proc && Steal(s.locals[v], s.fibers).stolen != [] {
        FibersLoot(s, t, w, v);
      } else {
        StepQuiet(s, t, w, t.workers[w]);
      }
    } else {
      StepQuiet(s, t, w, t.workers[w]);
    }
  }

  lemma FibersSettle(s: State, t: State, w: nat)
    requires Ledger(s) && Ledger(t) && FiberInv(ViewOf(s)) && At(s, w) && s.workers[w].phase.Settling?
    requires t == DoSettle(s, w)
    ensures FiberInv(ViewOf(t))
  {
    hide FiberInv, Owners, Affine, Balanced, Live;
    match StateOf(s.fibers, s.workers[w].phase.fiber)
    case Ready => StepRequeue(s, t, w);
    case Term => if s.workers[w].phase.isCallback { StepRetire(s, t, w); } else { StepQuiet(s, t, w, t.workers[w]); }
    case Except => if s.workers[w].phase.isCallback { StepRetire(s, t, w); } else { StepQuiet(s, t, w, t.workers[w]); }
    case _ => StepPark(s, t, w);
  }

  lemma FibersEnqueue(s: State, t: State, caller: Option<nat>, work: Work, thread: int, forceGlobal: bool)
    requires Ledger(s) && Ledger(t) && FiberInv(ViewOf(s)) && Enabled(s, Enqueue(caller, work, thread, forceGlobal))
    requires work.FiberWork? ==> work.fiber !in s.fibers || work.fiber in s.tokens
    requires t == DoEnqueue(s, caller, work, thread, forceGlobal)
    ensures FiberInv(ViewOf(t))
  {
    hide FiberInv, Owners, Affine, Balanced, Live;
    var origin := if caller.Some? then ByWorker(caller.value) else External(!StopSet(s));
    var x := Task(work, thread, origin);
    match work
    case FiberWork(f) => StepEnqueueFiber(s, t, x, f);
    case CallbackWork(_) => StepEnqueueCallback(s, t, x);
  }

  lemma FibersFlags(s: State, t: State)
    requires FiberInv(ViewOf(s)) && t == s.(stopping := t.stopping, autoStop := t.autoStop)
    ensures FiberInv(ViewOf(t))
  {
    SameLive(s, t);
  }

  // Steps on worker w that give it nothing and change no fiber.
  lemma FibersOther(s: State, t: State, w: nat)
    requires Ledger(s) && Ledger(t) && FiberInv(ViewOf(s)) && At(s, w)
    requires
      || (s.workers[w].phase.Outside? && t == DoEnterRun(s, w))
      || (s.workers[w].phase.Chosen? && t == DoSkipDead(s, w))
      || (s.workers[w].phase.SwitchedOut? && t == DoSwitchBack(s, w))
      || (s.workers[w].phase.Splicing? && t == DoSplice(s, w))
      || (s.workers[w].phase.AskSteal? && (t == DoStealAlone(s, w) || t == DoStealStarts(s, w)))
    ensures FiberInv(ViewOf(t))
  {
    hide FiberInv, Owners, Affine, Balanced, Live;
    StepQuiet(s, t, w, t.workers[w]);
  }

  lemma FibersIdle(s: State, t: State, w: nat)
    requires Ledger(s) && Ledger(t) && FiberInv(ViewOf(s)) && At(s, w)
    requires
      || (s.workers[w].phase.IdleWork? && t == SetPhase(s, w, Top))
      || (s.workers[w].phase.NoTask? && (t == SetPhase(s, w, IdleWork) || t == DoIdle(s, w)))
      || (s.workers[w].phase.CheckLocals? && t == DoCheckLocal(s, w))
    ensures FiberInv(ViewOf(t))
  {
    hide FiberInv, Ledger, Live;
    IdleIsQuiet(s, t, w);
    StepQuiet(s, t, w, t.workers[w]);
  }

  lemma IdleIsQuiet(s: State, t: State, w: nat)
    requires Ledger(s) && At(s, w)
    requires
      || (s.workers[w].phase.IdleWork? && t == SetPhase(s, w, Top))
      || (s.workers[w].phase.NoTask? && (t == SetPhase(s, w, IdleWork) || t == DoIdle(s, w)))
      || (s.workers[w].phase.CheckLocals? && t == DoCheckLocal(s, w))
    ensures |t.workers| == |s.workers| && t == s.(workers := s.workers[w := t.workers[w]])
    ensures t.workers[w].cbFiber == s.workers[w].cbFiber
    ensures !t.workers[w].phase.Running? && !t.workers[w].phase.Chosen?
    ensures Executing(t.workers[w].phase).None? && InHand(t.workers[w].phase).None?
  {
    hide Owners, Affine, Balanced;
  }

  lemma FibersKept(s: State, step: Step)
    requires Ledger(s) && FiberInv(ViewOf(s)) && Enabled(s, step) && Disciplined(s, step)
    ensures Ledger(Apply(s, step)) && FiberInv(ViewOf(Apply(s, step)))
  {
    hide FiberInv, Owners, Affine, Balanced, Live;
    hide DoDrawLocal, DoDrawGlobal, DoTryVictim, DoSplice, DoAccount, DoRequeue, DoEnterRun, DoEnqueue;
    hide DoStealStarts, DoStealAlone, DoCheckLocal, DoIdle, DoSettle, DoYield, DoResume, DoSkipDead, DoSwitchBack;
    LedgerKept(s, step);
    var t := Apply(s, step);
    match step
    case Start => FibersFlags(s, t);
    case RaiseAutoStop => FibersFlags(s, t);
    case RaiseStopping => FibersFlags(s, t);
    case Enqueue(caller, work, thread, forceGlobal) => FibersEnqueue(s, t, caller, work, thread, forceGlobal);
    case GrantWake(w) => StepGrant(s, t, w);
    case DrawLocal(w) => FibersDrawLocal(s, t, w);
    case DrawGlobal(w) => FibersDrawGlobal(s, t, w);
    case TryVictim(w) => FibersTryVictim(s, t, w);
    case Account(w) => StepAccount(s, t, w);
    case Resume(w, spare) => StepResume(s, t, w, spare);
    case YieldHold(w) => StepYield(s, t, w, Exec);
    case YieldReady(w) => StepYield(s, t, w, Ready);
    case Finish(w, failed) => StepYield(s, t, w, if failed then Except else Term);
    case Settle(w) => FibersSettle(s, t, w);
    case Idle(w) => FibersIdle(s, t, w);
    case RefuseStop(w) => FibersIdle(s, t, w);
    case CheckLocal(w) => FibersIdle(s, t, w);
    case LeaveIdle(w) => FibersIdle(s, t, w);
    case _ => FibersOther(s, t, step.w);
  }

  ghost predicate DisciplinedRun(states: seq<State>, steps: seq<Step>, tids: seq<int>) {
    && Run(states, steps, tids)
    && forall i :: 0 <= i < |steps| ==> Disciplined(states[i], steps[i])
  }

  lemma {:induction false} RunKeepsFibers(states: seq<State>, steps: seq<Step>, tids: seq<int>, i: nat)
    requires DisciplinedRun(states, steps, tids) && i < |states|
    ensures Ledger(states[i]) && FiberInv(ViewOf(states[i]))
  {
    hide Ledger, Enabled, Apply, Disciplined;
    RunKeepsLedger(states, steps, tids, i);
    if i == 0 {
      BlankSums(states[0].locals, states[0].workers, states[0].stats);
    } else {
      RunKeepsFibers(states, steps, tids, i - 1);
      FibersKept(states[i - 1], steps[i - 1]);
    }
  }

  // No double resume: in every disciplined run no two workers are ever inside the same fiber,
  // counting from swapIn until run() has settled its state.
  lemma NoDoubleResume(states: seq<State>, steps: seq<Step>, tids: seq<int>, i: nat, v: nat, w: nat, f: nat)
    requires DisciplinedRun(states, steps, tids) && i < |states|
    requires v < |states[i].workers| && w < |states[i].workers| && v != w
    requires Executing(states[i].workers[v].phase) == Some(f)
    ensures Executing(states[i].workers[w].phase) != Some(f)
  {
    RunKeepsFibers(states, steps, tids, i);
    NeverTwice(ViewOf(states[i]), v, w, f);
  }

  // The assertion at the head of swapIn never fails in a disciplined run: a worker that has
  // chosen an entry may always resume it.
  lemma SwapInNeverAborts(states: seq<State>, steps: seq<Step>, tids: seq<int>, i: nat, w: nat, spare: nat)
    requires DisciplinedRun(states, steps, tids) && i < |states| && At(states[i], w)
    requires states[i].workers[w].phase.Chosen? && spare !in states[i].fibers
    ensures SwapInAllowed(states[i], w, spare)
  {
    RunKeepsFibers(states, steps, tids, i);
    var s := states[i];
    assert ClaimFits(ViewOf(s), s.workers[w]);
    var f := ResumeTarget(s.workers[w], spare);
    if f in s.fibers { assert Reserves(s.workers[w], f); }
  }
}
