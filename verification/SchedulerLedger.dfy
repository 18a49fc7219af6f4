// What every run keeps about entries, counters, processors and thread pinning, with no
// assumption on how fibers are woken.
module SchedulerLedger {
  import opened Options
  import opened SchedulerQueues
  import opened SchedulerMachine

  // ---- sums over queues, workers and processors ----

  // Entries a worker holds between two critical sections.
  function Flight(p: Phase): multiset<Task> {
    match p
    case Splicing(t, batch, _) => multiset{t} + multiset(batch)
    case Drawn(t, _) => multiset{t}
    case _ => multiset{}
  }

  function BagAll(qs: seq<seq<Task>>): multiset<Task> {
    if qs == [] then multiset{} else multiset(qs[0]) + BagAll(qs[1..])
  }

  function FlightAll(ws: seq<Worker>): multiset<Task> {
    if ws == [] then multiset{} else Flight(ws[0].phase) + FlightAll(ws[1..])
  }

  // Entries that have been enqueued and neither executed nor dropped.
  function Live(s: State): multiset<Task> {
    multiset(s.global) + BagAll(s.locals) + FlightAll(s.workers)
  }

  function IsActive(p: Phase): nat {
    if p.Chosen? || p.Running? || p.SwitchedOut? then 1 else 0
  }

  function CountActive(ws: seq<Worker>): nat {
    if ws == [] then 0 else IsActive(ws[0].phase) + CountActive(ws[1..])
  }

  function Entered(p: Phase): nat { if p.Outside? then 0 else 1 }

  function CountEntered(ws: seq<Worker>): nat {
    if ws == [] then 0 else Entered(ws[0].phase) + CountEntered(ws[1..])
  }

  function SumExecuted(st: seq<Stats>): nat {
    if st == [] then 0 else st[0].executed + SumExecuted(st[1..])
  }

  function SumScheduled(st: seq<Stats>): nat {
    if st == [] then 0 else st[0].scheduled + SumScheduled(st[1..])
  }

  lemma AddBoth(h: multiset<Task>, a: multiset<Task>, b: multiset<Task>, c: multiset<Task>, d: multiset<Task>)
    requires a + b == c + d
    ensures (h + a) + b == (h + c) + d
  {
    assert (h + a) + b == h + (a + b);
    assert (h + c) + d == h + (c + d);
  }

  lemma {:induction false} BagUpdate(qs: seq<seq<Task>>, p: nat, q: seq<Task>)
    requires p < |qs|
    ensures BagAll(qs[p := q]) + multiset(qs[p]) == BagAll(qs) + multiset(q)
  {
    if p == 0 {
      assert qs[p := q][1..] == qs[1..];
    } else {
      BagUpdate(qs[1..], p - 1, q);
      AddBoth(multiset(qs[0]), BagAll(qs[1..][p - 1 := q]), multiset(qs[p]), BagAll(qs[1..]), multiset(q));
      assert qs[p := q][1..] == qs[1..][p - 1 := q];
    }
  }

  lemma {:induction false} FlightUpdate(ws: seq<Worker>, w: nat, x: Worker)
    requires w < |ws|
    ensures FlightAll(ws[w := x]) + Flight(ws[w].phase) == FlightAll(ws) + Flight(x.phase)
  {
    if w == 0 {
      assert ws[w := x][1..] == ws[1..];
    } else {
      FlightUpdate(ws[1..], w - 1, x);
      AddBoth(Flight(ws[0].phase), FlightAll(ws[1..][w - 1 := x]), Flight(ws[w].phase), FlightAll(ws[1..]), Flight(x.phase));
      assert ws[w := x][1..] == ws[1..][w - 1 := x];
    }
  }

  lemma FlightSame(ws: seq<Worker>, w: nat, x: Worker)
    requires w < |ws| && Flight(x.phase) == Flight(ws[w].phase)
    ensures FlightAll(ws[w := x]) == FlightAll(ws)
  {
    FlightUpdate(ws, w, x);
    var f := Flight(x.phase);
    assert (FlightAll(ws[w := x]) + f) - f == FlightAll(ws[w := x]);
    assert (FlightAll(ws) + f) - f == FlightAll(ws);
  }

  lemma {:induction false} CountUpdate(ws: seq<Worker>, w: nat, x: Worker)
    requires w < |ws|
    ensures CountActive(ws[w := x]) + IsActive(ws[w].phase) == CountActive(ws) + IsActive(x.phase)
    ensures CountEntered(ws[w := x]) + Entered(ws[w].phase) == CountEntered(ws) + Entered(x.phase)
    ensures CountEntered(ws) <= |ws| && (ws[w].phase.Outside? ==> CountEntered(ws) < |ws|)
  {
    EnteredAtMost(ws[1..]);
    if w == 0 {
      assert ws[w := x][1..] == ws[1..];
    } else {
      CountUpdate(ws[1..], w - 1, x);
      assert ws[w := x][1..] == ws[1..][w - 1 := x];
    }
  }

  lemma {:induction false} EnteredAtMost(ws: seq<Worker>)
    ensures CountEntered(ws) <= |ws|
  {
    if ws != [] { EnteredAtMost(ws[1..]); }
  }

  lemma {:induction false} SumUpdate(st: seq<Stats>, p: nat, x: Stats)
    requires p < |st|
    ensures SumExecuted(st[p := x]) + st[p].executed == SumExecuted(st) + x.executed
    ensures SumScheduled(st[p := x]) + st[p].scheduled == SumScheduled(st) + x.scheduled
  {
    if p == 0 {
      assert st[p := x][1..] == st[1..];
    } else {
      SumUpdate(st[1..], p - 1, x);
      assert st[p := x][1..] == st[1..][p - 1 := x];
    }
  }

  // ---- the invariants ----

  // Entries are conserved, and so are their counts.
  predicate Balanced(s: State) {
    && s.enqueued == Live(s) + s.executed + s.dropped
    && |s.executed| == SumExecuted(s.stats)
    && |s.enqueued| == s.globalScheduled + SumScheduled(s.stats)
  }

  predicate ActiveExact(s: State) { s.active == CountActive(s.workers) }

  // Per-processor counters, adjusted for a draw that is under way on the owning worker.
  predicate StatsFit(st: Stats, p: Phase) {
    && st.executed == st.localExecuted + st.globalExecuted + st.stealExecuted
    && st.globalBatches == st.globalExecuted + Pending(p, Global)
    && st.stealBatches == st.stealExecuted + Pending(p, Stolen)
    && st.stealAttempts == st.stealBatches + st.stealFails + (if p.Stealing? then 1 else 0)
  }

  function Pending(p: Phase, source: Source): nat {
    if (p.Splicing? || p.Drawn?) && p.source == source then 1 else 0
  }

  predicate Owns(wk: Worker, p: nat) { !wk.phase.Outside? && wk.proc == p }

  // Workers own distinct processors; a processor without an owner has never been used.
  predicate Owners(s: State)
    requires Shape(s)
  {
    && s.nextProcessor == CountEntered(s.workers)
    && (forall w :: 0 <= w < |s.workers| && !s.workers[w].phase.Outside? ==>
          s.workers[w].proc < s.nextProcessor && StatsFit(s.stats[s.workers[w].proc], s.workers[w].phase))
    && (forall v, w :: 0 <= v < w < |s.workers| && !s.workers[v].phase.Outside? && !s.workers[w].phase.Outside? ==>
          s.workers[v].proc != s.workers[w].proc)
    && (forall p :: s.nextProcessor <= p < |s.stats| ==> s.stats[p] == ZERO_STATS && s.locals[p] == [])
  }

  predicate AllUnpinned(q: seq<Task>) { forall t :: t in q ==> !t.Pinned() }

  predicate Mine(t: Task, tid: int) { t.Pinned() ==> t.thread == tid }

  predicate PhaseAffine(p: Phase, tid: int) {
    match p
    case Splicing(t, batch, _) => Mine(t, tid) && AllUnpinned(batch)
    case Drawn(t, _) => Mine(t, tid)
    case Chosen(t) => Mine(t, tid)
    case _ => true
  }

  // Local queues hold no pinned entry, and a worker only holds entries it may run.
  predicate Affine(s: State)
    requires Shape(s)
  {
    && (forall p :: 0 <= p < |s.locals| ==> AllUnpinned(s.locals[p]))
    && (forall w :: 0 <= w < |s.workers| ==> PhaseAffine(s.workers[w].phase, s.tids[w]))
  }

  predicate Ledger(s: State) {
    Shape(s) && Balanced(s) && ActiveExact(s) && Owners(s) && Affine(s)
  }

  // ---- one lemma for every step that moves a worker on its own processor ----

  // t differs from s by: worker w in a new phase; queue q of processor p (w's own, or a
  // victim's); counters st of w's processor; a new global queue and history.
  predicate Moves(s: State, t: State, w: nat, wk: Worker, p: nat, q: seq<Task>, st: Stats)
    requires Shape(s) && At(s, w) && p < |s.locals|
  {
    && t.tids == s.tids && t.nextProcessor == s.nextProcessor
    && t.workers == s.workers[w := wk]
    && t.locals == s.locals[p := q]
    && t.stats == s.stats[s.workers[w].proc := st]
    && wk.proc == s.workers[w].proc && !wk.phase.Outside? && !s.workers[w].phase.Outside?
    && InRange(wk, |s.locals|)
  }

  lemma MoveKeeps(s: State, t: State, w: nat, wk: Worker, p: nat, q: seq<Task>, st: Stats)
    requires Ledger(s) && At(s, w) && p < |s.locals| && Moves(s, t, w, wk, p, q, st)
    requires StatsFit(st, wk.phase)
    requires p == wk.proc || s.locals[p] != []
    requires AllUnpinned(q) && PhaseAffine(wk.phase, s.tids[w])
    requires t.active - s.active == IsActive(wk.phase) - IsActive(s.workers[w].phase)
    requires t.enqueued + multiset(s.global) + multiset(s.locals[p]) + Flight(s.workers[w].phase) + s.executed + s.dropped
          == s.enqueued + multiset(t.global) + multiset(q) + Flight(wk.phase) + t.executed + t.dropped
    requires |t.executed| - |s.executed| == st.executed - s.stats[wk.proc].executed
    requires |t.enqueued| - |s.enqueued|
          == t.globalScheduled - s.globalScheduled + st.scheduled - s.stats[wk.proc].scheduled
    ensures Ledger(t)
  {
    hide Owners, Affine, Balanced, StatsFit;
    CountUpdate(s.workers, w, wk);
    MoveKeepsOwners(s, t, w, wk, p, q, st);
    MoveKeepsAffine(s, t, w, wk, p, q, st);
    MoveKeepsBalance(s, t, w, wk, p, q, st);
  }

  lemma MoveKeepsAffine(s: State, t: State, w: nat, wk: Worker, p: nat, q: seq<Task>, st: Stats)
    requires Shape(s) && Affine(s) && At(s, w) && p < |s.locals| && Moves(s, t, w, wk, p, q, st) && Shape(t)
    requires AllUnpinned(q) && PhaseAffine(wk.phase, s.tids[w])
    ensures Affine(t)
  {
  }

  lemma MoveKeepsBalance(s: State, t: State, w: nat, wk: Worker, p: nat, q: seq<Task>, st: Stats)
    requires Shape(s) && Balanced(s) && At(s, w) && p < |s.locals|
    requires Moves(s, t, w, wk, p, q, st) && wk.proc == s.workers[w].proc
    requires t.enqueued + multiset(s.global) + multiset(s.locals[p]) + Flight(s.workers[w].phase) + s.executed + s.dropped
          == s.enqueued + multiset(t.global) + multiset(q) + Flight(wk.phase) + t.executed + t.dropped
    requires |t.executed| - |s.executed| == st.executed - s.stats[wk.proc].executed
    requires |t.enqueued| - |s.enqueued|
          == t.globalScheduled - s.globalScheduled + st.scheduled - s.stats[wk.proc].scheduled
    ensures Balanced(t)
  {
    FlightUpdate(s.workers, w, wk);
    BagUpdate(s.locals, p, q);
    SumUpdate(s.stats, wk.proc, st);
    MoveBalances(s, t, Flight(s.workers[w].phase), Flight(wk.phase), s.locals[p], q);
  }

  lemma MoveKeepsOwners(s: State, t: State, w: nat, wk: Worker, p: nat, q: seq<Task>, st: Stats)
    requires Shape(s) && Owners(s) && At(s, w) && p < |s.locals| && Moves(s, t, w, wk, p, q, st)
    requires StatsFit(st, wk.phase)
    requires p == wk.proc || s.locals[p] != []
    ensures Shape(t) && Owners(t)
  {
    CountUpdate(s.workers, w, wk);
  }

  lemma MoveBalances(s: State, t: State, f: multiset<Task>, f': multiset<Task>, q: seq<Task>, q': seq<Task>)
    requires s.enqueued == Live(s) + s.executed + s.dropped
    requires BagAll(t.locals) + multiset(q) == BagAll(s.locals) + multiset(q')
    requires FlightAll(t.workers) + f == FlightAll(s.workers) + f'
    requires t.enqueued + multiset(s.global) + multiset(q) + f + s.executed + s.dropped
          == s.enqueued + multiset(t.global) + multiset(q') + f' + t.executed + t.dropped
    ensures t.enqueued == Live(t) + t.executed + t.dropped
  {
    forall x ensures t.enqueued[x] == (Live(t) + t.executed + t.dropped)[x] {
      assert (BagAll(t.locals) + multiset(q))[x] == (BagAll(s.locals) + multiset(q'))[x];
      assert (FlightAll(t.workers) + f)[x] == (FlightAll(s.workers) + f')[x];
      assert (t.enqueued + multiset(s.global) + multiset(q) + f + s.executed + s.dropped)[x]
          == (s.enqueued + multiset(t.global) + multiset(q') + f' + t.executed + t.dropped)[x];
    }
  }

  // A step that only changes worker w's record, fiber states, tokens or the active count.
  lemma QuietMove(s: State, t: State, w: nat, wk: Worker)
    requires Ledger(s) && At(s, w) && !s.workers[w].phase.Outside? && !wk.phase.Outside?
    requires t == s.(workers := s.workers[w := wk], fibers := t.fibers, active := t.active)
    requires wk.proc == s.workers[w].proc && InRange(wk, |s.locals|)
    requires Flight(wk.phase) == Flight(s.workers[w].phase)
    requires StatsFit(s.stats[wk.proc], wk.phase) && PhaseAffine(wk.phase, s.tids[w])
    requires t.active - s.active == IsActive(wk.phase) - IsActive(s.workers[w].phase)
    ensures Ledger(t)
  {
    assert t.locals == s.locals[wk.proc := s.locals[wk.proc]];
    assert t.stats == s.stats[wk.proc := s.stats[wk.proc]];
    MoveKeeps(s, t, w, wk, wk.proc, s.locals[wk.proc], s.stats[wk.proc]);
  }

  // What a step on worker w may use of the invariant.
  lemma LedgerAt(s: State, w: nat)
    requires Ledger(s) && At(s, w)
    ensures forall p :: 0 <= p < |s.locals| ==> AllUnpinned(s.locals[p])
    ensures PhaseAffine(s.workers[w].phase, s.tids[w])
    ensures !s.workers[w].phase.Outside? ==> StatsFit(s.stats[s.workers[w].proc], s.workers[w].phase)
  {
  }

  // ---- the draws ----

  lemma PopLocalFits(q: seq<Task>, fibers: FiberTable)
    requires AllUnpinned(q)
    ensures var r := PopLocal(q, fibers);
      && AllUnpinned(r.rest) && (r.got.Some? ==> !r.got.value.Pinned())
      && multiset(q) == multiset(r.dropped) + multiset(ToSeq(r.got)) + multiset(r.rest)
  {
    PopLocalExact(q, fibers);
    PopLocalBag(q, fibers);
    var r := PopLocal(q, fibers);
    if r.got.Some? { assert r.got.value in q; }
  }

  lemma PullFits(q: seq<Task>, me: int, fibers: FiberTable)
    requires PopGlobal(q, me, true, fibers).got.Some?
    ensures var r := PopGlobal(q, me, true, fibers);
      && AllUnpinned(r.batch) && Mine(r.got.value, me)
      && multiset(q) == multiset{r.got.value} + multiset(r.batch) + multiset(r.rest)
  {
    PopGlobalBag(q, me, true, fibers);
    var at, cut := PopGlobalExact(q, me, true, fibers);
  }

  lemma LootFits(q: seq<Task>, fibers: FiberTable)
    requires AllUnpinned(q) && Steal(q, fibers).stolen != []
    ensures var r := Steal(q, fibers);
      && q != [] && AllUnpinned(r.left) && AllUnpinned(r.stolen)
      && multiset(q) == multiset{r.stolen[0]} + multiset(r.stolen[1..]) + multiset(r.left)
  {
    var r := Steal(q, fibers);
    StealMembers(q, fibers);
    TakeYoungestBag(q, AtLeastOne(|q| / 2), fibers);
    assert r.stolen == [r.stolen[0]] + r.stolen[1..];
    forall t | t in r.left ensures t in q { assert t in multiset(q); }
  }

  lemma LedgerDrawLocal(s: State, w: nat)
    requires Ledger(s) && At(s, w) && s.workers[w].phase.Top?
    ensures Ledger(DoDrawLocal(s, w))
  {
    hide Owners, Affine, Balanced, PopLocal;
    LedgerAt(s, w);
    var t := DoDrawLocal(s, w);
    var p := s.workers[w].proc;
    PopLocalFits(s.locals[p], s.fibers);
    assert t.stats == s.stats[p := s.stats[p]];
    MoveKeeps(s, t, w, t.workers[w], p, PopLocal(s.locals[p], s.fibers).rest, s.stats[p]);
  }

  lemma LedgerPull(s: State, w: nat, r: GlobalPop)
    requires Ledger(s) && At(s, w) && s.workers[w].phase.AskGlobal? && r.got.Some?
    requires AllUnpinned(r.batch) && Mine(r.got.value, s.tids[w])
    requires multiset(s.global) == multiset{r.got.value} + multiset(r.batch) + multiset(r.rest)
    ensures Ledger(DoPull(s, w, r))
  {
    hide Owners, Affine, Balanced;
    LedgerAt(s, w);
    var t := DoPull(s, w, r);
    var p := s.workers[w].proc;
    assert t.locals == s.locals[p := s.locals[p]];
    MoveKeeps(s, t, w, t.workers[w], p, s.locals[p], t.stats[p]);
  }

  lemma LedgerDrawGlobal(s: State, w: nat)
    requires Ledger(s) && At(s, w) && s.workers[w].phase.AskGlobal?
    ensures Ledger(DoDrawGlobal(s, w))
  {
    hide Owners, Affine, Balanced, PopGlobal;
    LedgerAt(s, w);
    var r := PopGlobal(s.global, s.tids[w], true, s.fibers);
    if r.got.None? {
      var t := DoDrawGlobal(s, w);
      QuietMove(s, t, w, t.workers[w]);
    } else {
      PullFits(s.global, s.tids[w], s.fibers);
      LedgerPull(s, w, r);
    }
  }

  lemma LedgerStealStarts(s: State, w: nat)
    requires Ledger(s) && At(s, w) && s.workers[w].phase.AskSteal?
    ensures Ledger(DoStealStarts(s, w))
  {
    hide Owners, Affine, Balanced;
    LedgerAt(s, w);
    var t := DoStealStarts(s, w);
    var p := s.workers[w].proc;
    assert t.locals == s.locals[p := s.locals[p]];
    MoveKeeps(s, t, w, t.workers[w], p, s.locals[p], t.stats[p]);
  }

  lemma LedgerStealAlone(s: State, w: nat)
    requires Ledger(s) && At(s, w) && s.workers[w].phase.AskSteal?
    ensures Ledger(DoStealAlone(s, w))
  {
    hide Owners, Affine, Balanced;
    LedgerAt(s, w);
    var t := DoStealAlone(s, w);
    var p := s.workers[w].proc;
    assert t.locals == s.locals[p := s.locals[p]];
    MoveKeeps(s, t, w, t.workers[w], p, s.locals[p], t.stats[p]);
  }

  lemma LedgerLoot(s: State, w: nat, v: nat, r: Loot)
    requires Ledger(s) && At(s, w) && s.workers[w].phase.Stealing? && v < |s.locals|
    requires r.stolen != [] && AllUnpinned(r.stolen) && AllUnpinned(r.left) && s.locals[v] != []
    requires multiset(s.locals[v]) == multiset{r.stolen[0]} + multiset(r.stolen[1..]) + multiset(r.left)
    ensures Ledger(DoLoot(s, w, v, r))
  {
    hide Owners, Affine, Balanced;
    LedgerAt(s, w);
    var t := DoLoot(s, w, v, r);
    MoveKeeps(s, t, w, t.workers[w], v, r.left, t.stats[s.workers[w].proc]);
  }

  lemma LedgerStealFails(s: State, w: nat)
    requires Ledger(s) && At(s, w) && s.workers[w].phase.Stealing?
    ensures Ledger(DoStealFails(s, w))
  {
    hide Owners, Affine, Balanced;
    LedgerAt(s, w);
    var t := DoStealFails(s, w);
    var p := s.workers[w].proc;
    assert t.locals == s.locals[p := s.locals[p]];
    MoveKeeps(s, t, w, t.workers[w], p, s.locals[p], t.stats[p]);
  }

  lemma LedgerTryVictim(s: State, w: nat)
    requires Ledger(s) && At(s, w) && s.workers[w].phase.Stealing?
    ensures Ledger(DoTryVictim(s, w))
  {
    hide Owners, Affine, Balanced, Steal;
    LedgerAt(s, w);
    var ph := s.workers[w].phase;
    if ph.offset >= |s.locals| {
      LedgerStealFails(s, w);
    } else {
      var v := Victim(s, ph);
      var r := Steal(s.locals[v], s.fibers);
      if v == s.workers[w].proc || r.stolen == [] {
        var t := DoTryVictim(s, w);
        QuietMove(s, t, w, t.workers[w]);
      } else {
        LootFits(s.locals[v], s.fibers);
        LedgerLoot(s, w, v, r);
      }
    }
  }

  lemma LedgerSplice(s: State, w: nat)
    requires Ledger(s) && At(s, w) && s.workers[w].phase.Splicing?
    ensures Ledger(DoSplice(s, w))
  {
    hide Owners, Affine, Balanced;
    LedgerAt(s, w);
    var t := DoSplice(s, w);
    var p := s.workers[w].proc;
    assert t.stats == s.stats[p := s.stats[p]];
    MoveKeeps(s, t, w, t.workers[w], p, t.locals[p], s.stats[p]);
  }

  lemma LedgerAccount(s: State, w: nat)
    requires Ledger(s) && At(s, w) && s.workers[w].phase.Drawn?
    ensures Ledger(DoAccount(s, w))
  {
    hide Owners, Affine, Balanced;
    LedgerAt(s, w);
    var t := DoAccount(s, w);
    var p := s.workers[w].proc;
    assert t.locals == s.locals[p := s.locals[p]];
    MoveKeeps(s, t, w, t.workers[w], p, s.locals[p], t.stats[p]);
  }

  lemma LedgerRequeue(s: State, w: nat)
    requires Ledger(s) && At(s, w) && s.workers[w].phase.Settling?
    ensures Ledger(DoRequeue(s, w))
  {
    hide Owners, Affine, Balanced;
    LedgerAt(s, w);
    var t := DoRequeue(s, w);
    var p := s.workers[w].proc;
    MoveKeeps(s, t, w, t.workers[w], p, t.locals[p], t.stats[p]);
  }

  // The k-th worker to enter run() gets processor k - 1: the cursor never wraps.
  lemma EnterOwners(s: State, t: State, w: nat, wk: Worker)
    requires Shape(s) && Owners(s) && At(s, w) && s.workers[w].phase.Outside?
    requires wk.proc == Cursor(s.nextProcessor, |s.locals|) && wk.phase.Top?
    requires t.workers == s.workers[w := wk] && t.nextProcessor == s.nextProcessor + 1
    requires t.stats == s.stats && t.locals == s.locals && t.tids == s.tids
    requires CountEntered(t.workers) == CountEntered(s.workers) + 1 <= |s.workers|
    ensures Shape(t) && Owners(t) && wk.proc == s.nextProcessor
  {
    hide CountEntered, Cursor, StatsFit;
    var p := s.nextProcessor;
    assert wk.proc == p;
    FreshFits(wk.phase);
    forall v | 0 <= v < |t.workers| && !t.workers[v].phase.Outside?
      ensures t.workers[v].proc < t.nextProcessor && StatsFit(t.stats[t.workers[v].proc], t.workers[v].phase)
    {
      if v != w {
        assert t.workers[v] == s.workers[v];
      }
    }
  }

  lemma FreshFits(p: Phase)
    requires p.Top?
    ensures StatsFit(ZERO_STATS, p)
  {
  }

  lemma LedgerEnterRun(s: State, w: nat)
    requires Ledger(s) && At(s, w) && s.workers[w].phase.Outside?
    ensures Ledger(DoEnterRun(s, w))
  {
    hide Owners, Affine, Balanced;
    var t := DoEnterRun(s, w);
    var wk := s.workers[w].(phase := Top, proc := Cursor(s.nextProcessor, |s.locals|));
    CountUpdate(s.workers, w, wk);
    FlightSame(s.workers, w, wk);
    EnterOwners(s, t, w, wk);
    AffineEnter(s, t, w);
    BalancedEnter(s, t);
  }

  lemma AffineEnter(s: State, t: State, w: nat)
    requires Shape(s) && Shape(t) && Affine(s) && At(s, w)
    requires t.locals == s.locals && t.tids == s.tids && t.workers == s.workers[w := t.workers[w]]
    requires t.workers[w].phase.Top?
    ensures Affine(t)
  {
  }

  lemma BalancedEnter(s: State, t: State)
    requires Balanced(s) && FlightAll(t.workers) == FlightAll(s.workers)
    requires t == s.(workers := t.workers, nextProcessor := t.nextProcessor)
    ensures Balanced(t)
  {
  }

  lemma LedgerPushGlobal(s: State, t: State, task: Task)
    requires Ledger(s)
    requires t == PushGlobal(s.(fibers := t.fibers, tokens := t.tokens), task)
    ensures Ledger(t)
  {
    MoveBalances(s, t, multiset{}, multiset{}, [], []);
  }

  // A worker's own unpinned entry joins its queue.
  lemma LedgerPushLocal(s: State, t: State, w: nat, task: Task)
    requires Ledger(s) && At(s, w) && !s.workers[w].phase.Outside? && !task.Pinned()
    requires t == PushLocal(s.(fibers := t.fibers, tokens := t.tokens), s.workers[w].proc, task)
    ensures Ledger(t)
  {
    hide Owners, Affine, Balanced, StatsFit;
    var p := s.workers[w].proc;
    LedgerAt(s, w);
    StatsFitScheduled(s.stats[p], t.stats[p], s.workers[w].phase);
    assert t.workers == s.workers[w := s.workers[w]];
    MoveKeeps(s, t, w, s.workers[w], p, t.locals[p], t.stats[p]);
  }

  // The schedule counter takes no part in the agreement of the draw counters.
  lemma StatsFitScheduled(a: Stats, b: Stats, p: Phase)
    requires StatsFit(a, p) && b == a.(scheduled := b.scheduled)
    ensures StatsFit(b, p)
  {
  }

  lemma LedgerEnqueue(s: State, caller: Option<nat>, work: Work, thread: int, forceGlobal: bool)
    requires Ledger(s) && Enabled(s, Enqueue(caller, work, thread, forceGlobal))
    ensures Ledger(DoEnqueue(s, caller, work, thread, forceGlobal))
  {
    hide Owners, Affine, Balanced, ActiveExact;
    var t := DoEnqueue(s, caller, work, thread, forceGlobal);
    var origin := if caller.Some? then ByWorker(caller.value) else External(!StopSet(s));
    if caller.Some? && thread == -1 && !forceGlobal {
      LedgerPushLocal(s, t, caller.value, Task(work, thread, origin));
    } else {
      LedgerPushGlobal(s, t, Task(work, thread, origin));
    }
  }

  // ---- every step, every run ----

  lemma LedgerKept(s: State, step: Step)
    requires Ledger(s) && Enabled(s, step)
    ensures Ledger(Apply(s, step))
  {
    hide Owners, Affine, Balanced, DoDrawLocal, DoDrawGlobal, DoTryVictim, DoSplice, DoAccount, DoRequeue, DoEnterRun, DoEnqueue;
    hide DoStealStarts, DoStealAlone, DoCheckLocal, DoIdle, DoSettle, DoYield, DoResume, DoSkipDead, DoSwitchBack;
    match step
    case EnterRun(w) => LedgerEnterRun(s, w);
    case Enqueue(caller, work, thread, forceGlobal) => LedgerEnqueue(s, caller, work, thread, forceGlobal);
    case DrawLocal(w) => LedgerDrawLocal(s, w);
    case DrawGlobal(w) => LedgerDrawGlobal(s, w);
    case BeginSteal(w) => LedgerStealStarts(s, w); LedgerStealAlone(s, w);
    case TryVictim(w) => LedgerTryVictim(s, w);
    case Splice(w) => LedgerSplice(s, w);
    case Account(w) => LedgerAccount(s, w);
    case Start => LedgerFlags(s, Apply(s, step));
    case RaiseAutoStop => LedgerFlags(s, Apply(s, step));
    case RaiseStopping => LedgerFlags(s, Apply(s, step));
    case GrantWake(w) => LedgerFlags(s, Apply(s, step));
    case Settle(w) => LedgerSettle(s, w);
    case SkipDead(w) => LedgerFiberSteps(s, w, Apply(s, step));
    case Resume(w, _) => LedgerFiberSteps(s, w, Apply(s, step));
    case YieldHold(w) => LedgerFiberSteps(s, w, Apply(s, step));
    case YieldReady(w) => LedgerFiberSteps(s, w, Apply(s, step));
    case Finish(w, _) => LedgerFiberSteps(s, w, Apply(s, step));
    case SwitchBack(w) => LedgerFiberSteps(s, w, Apply(s, step));
    case Idle(w) => LedgerIdle(s, w);
    case CheckLocal(w) => LedgerCheckLocal(s, w);
    case RefuseStop(w) => LedgerSetPhase(s, w, IdleWork);
    case LeaveIdle(w) => LedgerSetPhase(s, w, Top);
  }

  lemma LedgerFlags(s: State, t: State)
    requires Ledger(s)
    requires t == s.(stopping := t.stopping, autoStop := t.autoStop, tokens := t.tokens)
    ensures Ledger(t)
  {
  }

  lemma LedgerFiberSteps(s: State, w: nat, t: State)
    requires Ledger(s) && At(s, w)
    requires
      || (s.workers[w].phase.Chosen? && (t == DoSkipDead(s, w) || exists spare: nat :: t == DoResume(s, w, spare)))
      || (s.workers[w].phase.Running? && exists state :: t == DoYield(s, w, state))
      || (s.workers[w].phase.SwitchedOut? && t == DoSwitchBack(s, w))
    ensures Ledger(t)
  {
    hide Owners, Affine, Balanced;
    LedgerAt(s, w);
    QuietMove(s, t, w, t.workers[w]);
  }

  lemma LedgerSettle(s: State, w: nat)
    requires Ledger(s) && At(s, w) && s.workers[w].phase.Settling?
    ensures Ledger(DoSettle(s, w))
  {
    hide Owners, Affine, Balanced, DoRequeue;
    LedgerAt(s, w);
    LedgerRequeue(s, w);
    var t := DoRetire(s, w);
    QuietMove(s, t, w, t.workers[w]);
    var u := DoPark(s, w);
    QuietMove(s, u, w, u.workers[w]);
  }

  lemma LedgerSetPhase(s: State, w: nat, p: Phase)
    requires Ledger(s) && At(s, w)
    requires s.workers[w].phase.NoTask? || s.workers[w].phase.CheckLocals? || s.workers[w].phase.IdleWork?
    requires p.Left? || p.IdleWork? || p.Top? || (p.CheckLocals? && p.next < |s.locals|)
    ensures Ledger(SetPhase(s, w, p))
  {
    hide Owners, Affine, Balanced;
    LedgerAt(s, w);
    var t := SetPhase(s, w, p);
    QuietMove(s, t, w, t.workers[w]);
  }

  lemma LedgerCheckLocal(s: State, w: nat)
    requires Ledger(s) && At(s, w) && s.workers[w].phase.CheckLocals?
    ensures Ledger(DoCheckLocal(s, w))
  {
    hide Owners, Affine, Balanced;
    LedgerAt(s, w);
    var i := s.workers[w].phase.next;
    LedgerSetPhase(s, w, IdleWork);
    if i + 1 < |s.locals| { LedgerSetPhase(s, w, CheckLocals(i + 1)); }
    var t := s.(workers := s.workers[w := s.workers[w].(phase := Top, idleDone := true)]);
    QuietMove(s, t, w, t.workers[w]);
  }

  lemma LedgerIdle(s: State, w: nat)
    requires Ledger(s) && At(s, w) && s.workers[w].phase.NoTask?
    ensures Ledger(DoIdle(s, w))
  {
    hide Owners, Affine, Balanced;
    LedgerSetPhase(s, w, Left);
    LedgerSetPhase(s, w, CheckLocals(0));
    LedgerSetPhase(s, w, IdleWork);
  }

  lemma {:induction false} BlankSums(qs: seq<seq<Task>>, ws: seq<Worker>, st: seq<Stats>)
    requires forall i :: 0 <= i < |qs| ==> qs[i] == []
    requires forall i :: 0 <= i < |ws| ==> ws[i].phase.Outside?
    requires forall i :: 0 <= i < |st| ==> st[i] == ZERO_STATS
    ensures BagAll(qs) == multiset{} && FlightAll(ws) == multiset{}
    ensures CountActive(ws) == CountEntered(ws) == SumExecuted(st) == SumScheduled(st) == 0
    decreases |qs| + |ws| + |st|
  {
    if qs != [] {
      BlankSums(qs[1..], ws, st);
    } else if ws != [] {
      BlankSums(qs, ws[1..], st);
    } else if st != [] {
      BlankSums(qs, ws, st[1..]);
    }
  }

  lemma InitialLedger(tids: seq<int>)
    requires 0 < |tids|
    ensures Ledger(InitialState(tids))
  {
    var s := InitialState(tids);
    BlankSums(s.locals, s.workers, s.stats);
  }

  // The ledger holds in every state of every run, whatever the interleaving and however
  // fibers are woken.
  lemma {:induction false} RunKeepsLedger(states: seq<State>, steps: seq<Step>, tids: seq<int>, i: nat)
    requires Run(states, steps, tids) && i < |states|
    ensures Ledger(states[i])
  {
    hide Ledger, Enabled, Apply, InitialState;
    if i == 0 {
      InitialLedger(tids);
    } else {
      RunKeepsLedger(states, steps, tids, i - 1);
      LedgerKept(states[i - 1], steps[i - 1]);
    }
  }

  // ---- readable consequences ----

  function SumLengths(qs: seq<seq<Task>>): nat {
    if qs == [] then 0 else |qs[0]| + SumLengths(qs[1..])
  }

  function FlightCount(ws: seq<Worker>): nat {
    if ws == [] then 0 else |Flight(ws[0].phase)| + FlightCount(ws[1..])
  }

  lemma {:induction false} BagSizes(qs: seq<seq<Task>>, ws: seq<Worker>)
    ensures |BagAll(qs)| == SumLengths(qs) && |FlightAll(ws)| == FlightCount(ws)
    decreases |qs| + |ws|
  {
    if qs != [] {
      BagSizes(qs[1..], ws);
    } else if ws != [] {
      BagSizes(qs, ws[1..]);
    }
  }

  // Task conservation: the m_globalScheduleCount and schedule_count totals account for every
  // entry that is queued, in flight, executed or dropped, and for each entry individually.
  lemma TaskConservation(states: seq<State>, steps: seq<Step>, tids: seq<int>, i: nat)
    requires Run(states, steps, tids) && i < |states|
    ensures var s := states[i];
      && s.enqueued == multiset(s.global) + BagAll(s.locals) + FlightAll(s.workers) + s.executed + s.dropped
      && |s.global| + SumLengths(s.locals) + FlightCount(s.workers) + SumExecuted(s.stats) + |s.dropped|
         == s.globalScheduled + SumScheduled(s.stats)
  {
    var s := states[i];
    RunKeepsLedger(states, steps, tids, i);
    BagSizes(s.locals, s.workers);
  }

  predicate Quiet(p: Phase) { !p.Splicing? && !p.Drawn? && !p.Stealing? }

  // Once no draw is under way on a processor's worker, its counters agree exactly.
  lemma CountersAgree(states: seq<State>, steps: seq<Step>, tids: seq<int>, i: nat, p: nat)
    requires Run(states, steps, tids) && i < |states| && p < |states[i].stats|
    requires forall w :: 0 <= w < |states[i].workers| ==> Quiet(states[i].workers[w].phase)
    ensures var st := states[i].stats[p];
      && st.executed == st.localExecuted + st.globalExecuted + st.stealExecuted
      && st.globalExecuted == st.globalBatches && st.stealExecuted == st.stealBatches
      && st.stealAttempts == st.stealBatches + st.stealFails
  {
    var s := states[i];
    RunKeepsLedger(states, steps, tids, i);
    if p < s.nextProcessor {
      var w := OwnerOf(s, p);
    }
  }

  // Every processor below the cursor has an owner.
  lemma OwnerOf(s: State, p: nat) returns (w: nat)
    requires Shape(s) && Owners(s) && p < s.nextProcessor
    ensures w < |s.workers| && Owns(s.workers[w], p)
  {
    if forall w :: 0 <= w < |s.workers| ==> !Owns(s.workers[w], p) {
      var used := EnteredProcs(s.workers, s.nextProcessor);
      assert p !in used;
      var all := Below(s.nextProcessor);
      assert used <= all - {p};
      SubsetSize(used, all - {p});
      assert false;
    }
    w :| w < |s.workers| && Owns(s.workers[w], p);
  }

  // In every run the workers inside run() have distinct processors, namely all of those below
  // the round-robin cursor, and the cursor counts those workers.
  lemma DistinctProcessors(states: seq<State>, steps: seq<Step>, tids: seq<int>, i: nat)
    requires Run(states, steps, tids) && i < |states|
    ensures var s := states[i];
      && s.nextProcessor == CountEntered(s.workers) <= |s.locals|
      && (forall v, w :: 0 <= v < w < |s.workers| && !s.workers[v].phase.Outside? && !s.workers[w].phase.Outside? ==>
            s.workers[v].proc != s.workers[w].proc)
      && (forall p: nat :: Owned(s.workers, p) <==> p < s.nextProcessor)
  {
    hide Balanced, Affine, Apply, Enabled, InitialState;
    RunKeepsLedger(states, steps, tids, i);
    var s := states[i];
    EnteredAtMost(s.workers);
    forall p: nat ensures Owned(s.workers, p) <==> p < s.nextProcessor {
      if p < s.nextProcessor {
        var w := OwnerOf(s, p);
      }
    }
  }

  ghost predicate Owned(ws: seq<Worker>, p: nat) {
    exists w :: 0 <= w < |ws| && Owns(ws[w], p)
  }

  lemma {:induction false} EnteredProcs(ws: seq<Worker>, bound: nat) returns (used: set<nat>)
    requires forall w :: 0 <= w < |ws| && !ws[w].phase.Outside? ==> ws[w].proc < bound
    requires forall v, w :: 0 <= v < w < |ws| && !ws[v].phase.Outside? && !ws[w].phase.Outside? ==> ws[v].proc != ws[w].proc
    ensures |used| == CountEntered(ws)
    ensures forall p :: p in used ==> p < bound && exists w :: 0 <= w < |ws| && Owns(ws[w], p)
    ensures forall w :: 0 <= w < |ws| && !ws[w].phase.Outside? ==> ws[w].proc in used
  {
    if ws == [] {
      used := {};
    } else {
      var rest := EnteredProcs(ws[1..], bound);
      forall p | p in rest ensures exists w :: 0 <= w < |ws| && Owns(ws[w], p) {
        var w :| 0 <= w < |ws[1..]| && Owns(ws[1..][w], p);
        assert Owns(ws[w + 1], p);
      }
      if ws[0].phase.Outside? {
        used := rest;
      } else {
        assert ws[0].proc !in rest;
        used := rest + {ws[0].proc};
        assert Owns(ws[0], ws[0].proc);
      }
    }
  }

  ghost function Below(n: nat): (r: set<nat>)
    ensures |r| == n && forall i: nat :: i in r <==> i < n
  {
    if n == 0 then {} else Below(n - 1) + {n - 1}
  }

  lemma {:induction false} SubsetSize(a: set<nat>, b: set<nat>)
    requires a <= b
    ensures |a| <= |b|
  {
    if a != {} {
      var x :| x in a;
      SubsetSize(a - {x}, b - {x});
    }
  }

  // m_activeThreadCount is the number of workers between a counted draw and its return, so
  // neither of the two decrements can underflow.
  lemma ActiveNeverUnderflows(states: seq<State>, steps: seq<Step>, tids: seq<int>, i: nat)
    requires Run(states, steps, tids) && i < |states|
    ensures states[i].active == CountActive(states[i].workers)
    ensures i < |steps| && (steps[i].SkipDead? || steps[i].SwitchBack?) ==> states[i].active > 0
  {
    RunKeepsLedger(states, steps, tids, i);
    if i < |steps| && (steps[i].SkipDead? || steps[i].SwitchBack?) {
      ActiveSeen(states[i].workers, steps[i].w);
    }
  }

  lemma {:induction false} ActiveSeen(ws: seq<Worker>, w: nat)
    requires w < |ws| && IsActive(ws[w].phase) == 1
    ensures CountActive(ws) > 0
  {
    if w > 0 { ActiveSeen(ws[1..], w - 1); }
  }

  // No pinned entry ever reaches a local queue, so stealTask's guard against pinned entries
  // never fires; and whatever a worker has drawn, it is allowed to run.
  lemma ThreadAffinity(states: seq<State>, steps: seq<Step>, tids: seq<int>, i: nat)
    requires Run(states, steps, tids) && i < |states|
    ensures var s := states[i];
      && (forall p, t :: 0 <= p < |s.locals| && t in s.locals[p] ==> !t.Pinned())
      && (forall w :: 0 <= w < |s.workers| ==>
            w < |s.tids| &&
            match s.workers[w].phase
            case Splicing(t, _, _) => Mine(t, s.tids[w])
            case Drawn(t, _) => Mine(t, s.tids[w])
            case Chosen(t) => Mine(t, s.tids[w])
            case _ => true)
  {
    RunKeepsLedger(states, steps, tids, i);
  }
}
