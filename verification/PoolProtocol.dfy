// Whole runs of one connection pool: callers, the creation of connections outside the lock,
// timeouts and returns interleave freely, each critical section being one step.
module PoolProtocol {
  import opened Options
  import opened ConnectionPool

  // held: connections owned by callers. creating: slots reserved by callers that are still
  // connecting. made: connections made so far, which also names the next one. failures:
  // failed creations so far.
  datatype System = System(pool: Pool, held: set<nat>, creating: nat, made: nat, failures: nat)

  datatype Step =
    | GetStep(timeoutMs: int, inFiber: bool)
    | Created
    | CreateFailed
    | Release(db: nat)
    | Expire(waiter: nat)
    | CallSchedule(waiter: nat)
    | Wake(waiter: nat, early: bool)   // early: resumed by something other than the pool

  function Start(maxConn: Option<nat>, connection: Option<nat>): System {
    System(Pool([], [], 0, PoolLimit(maxConn, connection), []), {}, 0, 0, 0)
  }

  predicate Enabled(s: System, step: Step) {
    match step
    case GetStep(_, _) => true
    case Created => s.creating > 0
    case CreateFailed => s.creating > 0
    case Release(db) => db in s.held && Known(s.pool)
    case Expire(w) => w < |s.pool.records| && s.pool.records[w].timed
    case CallSchedule(w) => w < |s.pool.records| && s.pool.records[w].owed
    case Wake(w, early) =>
      w < |s.pool.records| && s.pool.records[w].parked && (early || s.pool.records[w].scheduled > 0)
  }

  function Apply(s: System, step: Step): System
    requires Enabled(s, step)
  {
    match step
    case GetStep(timeoutMs, inFiber) =>
      var (p, outcome) := Get(s.pool, timeoutMs, inFiber);
      (match outcome
       case Reuse(db) => s.(pool := p, held := s.held + {db})
       case Create => s.(pool := p, creating := s.creating + 1)
       case _ => s.(pool := p))
    case Created => s.(creating := s.creating - 1, held := s.held + {s.made}, made := s.made + 1)
    case CreateFailed =>
      s.(pool := s.pool.(totalCount := s.pool.totalCount - 1), creating := s.creating - 1, failures := s.failures + 1)
    case Release(db) => s.(pool := Free(s.pool, db), held := s.held - {db})
    case Expire(w) => s.(pool := TimeOut(s.pool, w))
    case CallSchedule(w) =>
      var r := s.pool.records[w];
      s.(pool := s.pool.(records := s.pool.records[w := r.(owed := false, scheduled := r.scheduled + 1)]))
    case Wake(w, _) =>
      var db := s.pool.records[w].db;
      s.(pool := Resume(s.pool, w), held := if db.Some? then s.held + {db.value} else s.held)
  }

  // ---- the invariant ----

  predicate Increasing(s: seq<nat>) { forall i, j :: 0 <= i < j < |s| ==> s[i] < s[j] }

  // The list holds exactly the linked waiters, in arrival order.
  predicate ListExact(p: Pool) {
    && Increasing(p.waiters)
    && Known(p)
    && (forall w :: w in p.waiters ==> w < |p.records| && p.records[w].linked)
    && (forall w :: 0 <= w < |p.records| && p.records[w].linked ==> w in p.waiters)
  }

  predicate WaiterFits(r: Waiter) {
    && r.linked == !r.done
    && (!r.done ==> r.parked)
    && (r.db.Some? ==> r.done && !r.timedOut)
    && (r.timedOut ==> r.done)
    && r.scheduled + (if r.owed then 1 else 0) == (if r.db.Some? || r.timedOut then 1 else 0)
  }

  predicate WaitersFit(p: Pool) { forall w :: 0 <= w < |p.records| ==> WaiterFits(p.records[w]) }

  // Waiters that were handed a connection and have not resumed yet.
  predicate Carries(r: Waiter) { r.parked && r.db.Some? }

  function Carriers(records: seq<Waiter>): nat {
    if records == [] then 0 else Carriers(records[..|records| - 1]) + (if Carries(records[|records| - 1]) then 1 else 0)
  }

  // Every connection is in at most one place: idle, held by a caller, or with one waiter.
  predicate OnePlace(s: System) {
    && (forall i, j :: 0 <= i < j < |s.pool.idle| ==> s.pool.idle[i] != s.pool.idle[j])
    && (forall i :: 0 <= i < |s.pool.idle| ==> s.pool.idle[i] < s.made && s.pool.idle[i] !in s.held)
    && (forall c :: c in s.held ==> c < s.made)
    && (forall w :: 0 <= w < |s.pool.records| && Carries(s.pool.records[w]) ==>
          var c := s.pool.records[w].db.value;
          c < s.made && c !in s.held && c !in s.pool.idle)
    && (forall v, w :: 0 <= v < w < |s.pool.records| && Carries(s.pool.records[v]) && Carries(s.pool.records[w]) ==>
          s.pool.records[v].db != s.pool.records[w].db)
  }

  predicate Conserved(s: System) {
    && s.pool.totalCount == |s.pool.idle| + |s.held| + Carriers(s.pool.records) + s.creating
    && s.pool.totalCount <= s.pool.maxConn
  }

  predicate WorkConserving(s: System) {
    s.pool.waiters != [] ==>
      && s.pool.idle == []
      && (s.failures == 0 ==> s.pool.totalCount == s.pool.maxConn)
  }

  predicate Inv(s: System) {
    ListExact(s.pool) && WaitersFit(s.pool) && OnePlace(s) && Conserved(s) && WorkConserving(s)
  }

  // ---- list lemmas ----

  lemma {:induction false} WithoutExact(s: seq<nat>, w: nat)
    requires Increasing(s)
    ensures Increasing(Without(s, w))
    ensures forall x :: x in Without(s, w) <==> x in s && x != w
    ensures s != [] ==> forall x :: x in Without(s, w) ==> s[0] <= x
  {
    if s != [] && s[0] != w {
      assert s == [s[0]] + s[1..];
      WithoutExact(s[1..], w);
      var r := Without(s[1..], w);
      forall x | x in r ensures s[0] < x { assert x in s[1..]; }
      forall i, j | 0 <= i < j < |[s[0]] + r| ensures ([s[0]] + r)[i] < ([s[0]] + r)[j] {
        if i == 0 { assert r[j - 1] in r; }
      }
    } else if s != [] {
      assert s == [s[0]] + s[1..];
      forall x | x in s[1..] ensures s[0] < x {}
    }
  }

  lemma {:induction false} CarriersUpdate(records: seq<Waiter>, w: nat, r: Waiter)
    requires w < |records|
    ensures Carriers(records[w := r]) + (if Carries(records[w]) then 1 else 0)
         == Carriers(records) + (if Carries(r) then 1 else 0)
  {
    var n := |records| - 1;
    if w == n {
      assert records[w := r][..n] == records[..n];
    } else {
      assert records[w := r][..n] == records[..n][w := r];
      CarriersUpdate(records[..n], w, r);
    }
  }

  // ---- each step ----

  // The skip branch of freeSoci is unreachable: a linked waiter is never done, so freeSoci
  // hands the connection to the first waiter, or puts it back when there is none.
  lemma FreeIsDirect(p: Pool, db: nat)
    requires ListExact(p) && WaitersFit(p)
    ensures p.waiters == [] ==> Free(p, db) == p.(idle := p.idle + [db])
    ensures p.waiters != [] ==>
      var w := p.waiters[0];
      && !p.records[w].done
      && Free(p, db) == p.(waiters := p.waiters[1..],
           records := p.records[w := p.records[w].(linked := false, done := true, db := Some(db), owed := true)])
  {
    if p.waiters != [] { assert p.waiters[0] in p.waiters; }
  }

  lemma HeadUnlinked(p: Pool, q: Pool, w: nat, r: Waiter)
    requires ListExact(p) && w < |p.records| && !r.linked
    requires p.waiters == [w] + q.waiters && q.records == p.records[w := r]
    ensures ListExact(q)
  {
    assert forall i :: 0 <= i < |q.waiters| ==> q.waiters[i] == p.waiters[i + 1] > p.waiters[0];
  }

  lemma Unlinked(p: Pool, q: Pool, w: nat, r: Waiter)
    requires ListExact(p) && w < |p.records| && !r.linked
    requires q.waiters == Without(p.waiters, w) && q.records == p.records[w := r]
    ensures ListExact(q)
  {
    WithoutExact(p.waiters, w);
    forall i | 0 <= i < |q.waiters| ensures q.waiters[i] < |q.records| {
      assert q.waiters[i] in q.waiters;
    }
  }

  // A connection moves from its holder to waiter w.
  lemma PlacedWithWaiter(s: System, t: System, w: nat, r: Waiter, db: nat)
    requires OnePlace(s) && w < |s.pool.records| && db in s.held && !Carries(s.pool.records[w])
    requires t.pool.idle == s.pool.idle && t.made == s.made && t.held == s.held - {db}
    requires t.pool.records == s.pool.records[w := r] && r.db == Some(db)
    ensures OnePlace(t)
  {
  }

  lemma ReleaseKeeps(s: System, db: nat)
    requires Inv(s) && db in s.held
    ensures Inv(Apply(s, Release(db)))
  {
    var t := Apply(s, Release(db));
    FreeIsDirect(s.pool, db);
    if s.pool.waiters != [] {
      hide OnePlace;
      var w := s.pool.waiters[0];
      CarriersUpdate(s.pool.records, w, t.pool.records[w]);
      HeadUnlinked(s.pool, t.pool, w, t.pool.records[w]);
      PlacedWithWaiter(s, t, w, t.pool.records[w], db);
      hide ListExact;
    }
  }

  // The caller takes the first idle connection.
  lemma ReuseKeeps(s: System, t: System)
    requires Inv(s) && s.pool.idle != []
    requires t == s.(pool := s.pool.(idle := s.pool.idle[1..]), held := s.held + {s.pool.idle[0]})
    ensures Inv(t)
  {
    hide Carriers;
    var c := s.pool.idle[0];
    assert s.pool.idle == [c] + s.pool.idle[1..];
    assert c !in s.pool.idle[1..];
  }

  // The caller joins the list.
  lemma JoinKeeps(s: System, t: System, r: Waiter)
    requires Inv(s) && s.pool.idle == [] && s.pool.totalCount >= s.pool.maxConn
    requires r.linked && r.parked && !r.done && r.db.None? && !r.timedOut && !r.owed && r.scheduled == 0
    requires t == s.(pool := s.pool.(waiters := s.pool.waiters + [|s.pool.records|], records := s.pool.records + [r]))
    ensures Inv(t)
  {
    var n := |s.pool.records|;
    assert t.pool.records[..n] == s.pool.records;
    assert t.pool.records[n].linked && n in t.pool.waiters;
  }

  lemma GetKeeps(s: System, timeoutMs: int, inFiber: bool)
    requires Inv(s)
    ensures Inv(Apply(s, GetStep(timeoutMs, inFiber)))
  {
    hide ListExact, WaitersFit, OnePlace, Carriers;
    var t := Apply(s, GetStep(timeoutMs, inFiber));
    if s.pool.idle != [] {
      ReuseKeeps(s, t);
    } else if s.pool.totalCount < s.pool.maxConn {
      ReserveKeeps(s, t);
    } else if timeoutMs != 0 && inFiber {
      JoinKeeps(s, t, NEW_WAITER.(timed := timeoutMs > 0));
    }
  }

  // The caller reserves a slot.
  lemma ReserveKeeps(s: System, t: System)
    requires Inv(s) && s.pool.idle == [] && s.pool.totalCount < s.pool.maxConn
    requires t == s.(pool := s.pool.(totalCount := s.pool.totalCount + 1), creating := s.creating + 1)
    ensures Inv(t)
  {
  }

  lemma ExpireKeeps(s: System, w: nat)
    requires Inv(s) && w < |s.pool.records|
    ensures Inv(s.(pool := TimeOut(s.pool, w)))
  {
    var t := s.(pool := TimeOut(s.pool, w));
    if !s.pool.records[w].done {
      WithoutExact(s.pool.waiters, w);
      assert w in s.pool.waiters;
      CarriersUpdate(s.pool.records, w, t.pool.records[w]);
      forall i | 0 <= i < |t.pool.waiters| ensures t.pool.waiters[i] < |t.pool.records| {
        assert t.pool.waiters[i] in t.pool.waiters;
      }
    }
  }

  // A resumed waiter takes its connection along.
  lemma PlacedWithCaller(s: System, t: System, w: nat, r: Waiter)
    requires OnePlace(s) && w < |s.pool.records| && s.pool.records[w].parked
    requires t.pool.idle == s.pool.idle && t.made == s.made
    requires var db := s.pool.records[w].db; t.held == if db.Some? then s.held + {db.value} else s.held
    requires t.pool.records == s.pool.records[w := r] && !r.parked
    ensures OnePlace(t)
    ensures s.pool.records[w].db.Some? ==> s.pool.records[w].db.value !in s.held
  {
    if s.pool.records[w].db.Some? { assert Carries(s.pool.records[w]); }
  }

  lemma WakeKeeps(s: System, w: nat, early: bool)
    requires Inv(s) && Enabled(s, Wake(w, early))
    ensures Inv(Apply(s, Wake(w, early)))
  {
    hide OnePlace, ListExact;
    var t := Apply(s, Wake(w, early));
    CarriersUpdate(s.pool.records, w, t.pool.records[w]);
    PlacedWithCaller(s, t, w, t.pool.records[w]);
    NotListed(s.pool, w);
    Unlinked(s.pool, t.pool, w, t.pool.records[w]);
  }

  lemma {:induction false} WithoutAbsent(s: seq<nat>, w: nat)
    requires w !in s
    ensures Without(s, w) == s
  {
    if s != [] { WithoutAbsent(s[1..], w); }
  }

  lemma NotListed(p: Pool, w: nat)
    requires ListExact(p) && w < |p.records|
    ensures !p.records[w].linked ==> Without(p.waiters, w) == p.waiters
  {
    if !p.records[w].linked { WithoutAbsent(p.waiters, w); }
  }

  lemma StepKeeps(s: System, step: Step)
    requires Inv(s) && Enabled(s, step)
    ensures Inv(Apply(s, step))
  {
    match step
    case GetStep(timeoutMs, inFiber) => GetKeeps(s, timeoutMs, inFiber);
    case Release(db) => ReleaseKeeps(s, db);
    case Expire(w) => ExpireKeeps(s, w);
    case Wake(w, early) => WakeKeeps(s, w, early);
    case CallSchedule(w) => CarriersUpdate(s.pool.records, w, Apply(s, step).pool.records[w]);
    case Created =>
    case CreateFailed =>
  }

  // ---- whole runs ----

  predicate Run(states: seq<System>, steps: seq<Step>, maxConn: Option<nat>, connection: Option<nat>) {
    && |states| == |steps| + 1
    && states[0] == Start(maxConn, connection)
    && forall i :: 0 <= i < |steps| ==> Enabled(states[i], steps[i]) && states[i + 1] == Apply(states[i], steps[i])
  }

  lemma {:induction false} RunKeeps(states: seq<System>, steps: seq<Step>, a: Option<nat>, b: Option<nat>, i: nat)
    requires Run(states, steps, a, b) && i < |states|
    ensures Inv(states[i])
  {
    if i > 0 {
      RunKeeps(states, steps, a, b, i - 1);
      StepKeeps(states[i - 1], steps[i - 1]);
    }
  }

  // Pool conservation over all runs: the count is exactly the connections that are idle, with
  // callers, with waiters that have yet to resume, or being made; it never exceeds the limit
  // and is positive whenever a failed creation takes one off.
  lemma PoolConservation(states: seq<System>, steps: seq<Step>, a: Option<nat>, b: Option<nat>, i: nat)
    requires Run(states, steps, a, b) && i < |states|
    ensures var s := states[i];
      && s.pool.totalCount == |s.pool.idle| + |s.held| + Carriers(s.pool.records) + s.creating <= s.pool.maxConn
      && (i < |steps| && steps[i].CreateFailed? ==> s.pool.totalCount > 0)
      && OnePlace(s)
  {
    RunKeeps(states, steps, a, b, i);
  }

  // Exactly-once completion: a waiter is listed exactly while it is not done; it is ended by a
  // hand-off or a timeout but never by both; its fiber is scheduled at most once; and a
  // timed-out waiter never carries a connection.
  lemma EndedOnce(states: seq<System>, steps: seq<Step>, a: Option<nat>, b: Option<nat>, i: nat, w: nat)
    requires Run(states, steps, a, b) && i < |states| && w < |states[i].pool.records|
    ensures var r := states[i].pool.records[w];
      && (w in states[i].pool.waiters <==> r.linked) && (r.linked <==> !r.done)
      && !(r.db.Some? && r.timedOut)
      && r.scheduled <= 1
      && (r.scheduled == 1 ==> r.db.Some? || r.timedOut)
  {
    RunKeeps(states, steps, a, b, i);
    assert WaiterFits(states[i].pool.records[w]);
  }

  // When the timer of a waiter fires, its wait is over afterwards, and it is in no list: by the
  // timeout, which then owes it its one wake-up and leaves it without a connection, if it was
  // not over before; otherwise nothing changes.
  lemma ExpireEnds(states: seq<System>, steps: seq<Step>, a: Option<nat>, b: Option<nat>, i: nat, w: nat)
    requires Run(states, steps, a, b) && i < |steps| && steps[i] == Expire(w)
    ensures var (p, q) := (states[i].pool, states[i + 1].pool);
      && w < |p.records| == |q.records| && q.records[w].done && w !in q.waiters
      && (p.records[w].done ==> states[i + 1] == states[i])
      && (!p.records[w].done ==>
            && q.records[w].timedOut && q.records[w].owed && q.records[w].db.None? && q.records[w].scheduled == 0
            && TakenOut(p.waiters, w, q.waiters)
            && (forall v :: 0 <= v < |p.records| && v != w ==> q.records[v] == p.records[v])
            && states[i + 1] == states[i].(pool := p.(waiters := q.waiters, records := q.records)))
  {
    RunKeeps(states, steps, a, b, i);
    RunKeeps(states, steps, a, b, i + 1);
    TimeOutExact(states[i].pool, w);
    assert WaiterFits(states[i].pool.records[w]) && WaiterFits(states[i + 1].pool.records[w]);
  }

  // A wake-up that is owed is made by one call of schedule(), after which the waiter may resume.
  lemma OwedIsScheduled(states: seq<System>, steps: seq<Step>, a: Option<nat>, b: Option<nat>, i: nat, w: nat)
    requires Run(states, steps, a, b) && i < |states| && w < |states[i].pool.records|
    requires states[i].pool.records[w].owed
    ensures Enabled(states[i], CallSchedule(w))
    ensures var (p, q) := (states[i].pool, Apply(states[i], CallSchedule(w)).pool);
      && q.records[w] == p.records[w].(owed := false, scheduled := 1)
      && q == p.(records := p.records[w := q.records[w]])
  {
    RunKeeps(states, steps, a, b, i);
    assert WaiterFits(states[i].pool.records[w]);
  }

  predicate Punctual(step: Step) { step.Wake? ==> !step.early }

  predicate Resumed(s: System) {
    forall w :: 0 <= w < |s.pool.records| && !s.pool.records[w].parked ==> s.pool.records[w].scheduled > 0
  }

  lemma ResumedKept(s: System, step: Step)
    requires Inv(s) && Resumed(s) && Enabled(s, step) && Punctual(step)
    ensures Resumed(Apply(s, step))
  {
    hide ListExact, WaitersFit, OnePlace, Conserved, WorkConserving, Without, Free;
    if step.Release? { FreeIsDirect(s.pool, step.db); }
  }

  lemma {:induction false} RunResumes(states: seq<System>, steps: seq<Step>, a: Option<nat>, b: Option<nat>, i: nat)
    requires Run(states, steps, a, b) && i < |states|
    requires forall j :: 0 <= j < |steps| ==> Punctual(steps[j])
    ensures Resumed(states[i])
  {
    if i > 0 {
      RunKeeps(states, steps, a, b, i - 1);
      RunResumes(states, steps, a, b, i - 1);
      ResumedKept(states[i - 1], steps[i - 1]);
    }
  }

  // If waiters are only resumed by the pool's own schedule() calls, every waiter that has
  // resumed was ended by exactly one of the two parties and was scheduled exactly once.
  lemma ResumedOnce(states: seq<System>, steps: seq<Step>, a: Option<nat>, b: Option<nat>, i: nat, w: nat)
    requires Run(states, steps, a, b) && i < |states| && w < |states[i].pool.records|
    requires forall j :: 0 <= j < |steps| ==> Punctual(steps[j])
    requires !states[i].pool.records[w].parked
    ensures var r := states[i].pool.records[w]; r.scheduled == 1 && (r.db.Some? <==> !r.timedOut)
  {
    RunKeeps(states, steps, a, b, i);
    RunResumes(states, steps, a, b, i);
    assert WaiterFits(states[i].pool.records[w]);
  }

  // ---- order and work conservation ----

  // A waiter that was handed a connection leaves no earlier waiter waiting.
  predicate InOrder(p: Pool) {
    forall v, w :: 0 <= v < w < |p.records| && p.records[w].db.Some? ==> p.records[v].done
  }

  lemma InOrderKept(s: System, step: Step)
    requires Inv(s) && InOrder(s.pool) && Enabled(s, step)
    ensures InOrder(Apply(s, step).pool)
  {
    if step.Release? {
      FreeIsDirect(s.pool, step.db);
      if s.pool.waiters != [] {
        var first := s.pool.waiters[0];
        forall v | 0 <= v < first ensures s.pool.records[v].done {
          assert v !in s.pool.waiters;
          assert WaiterFits(s.pool.records[v]);
        }
      }
    }
  }

  // First come, first served: hand-offs follow the order of arrival.
  lemma {:induction false} HandOffsInOrder(states: seq<System>, steps: seq<Step>, a: Option<nat>, b: Option<nat>, i: nat)
    requires Run(states, steps, a, b) && i < |states|
    ensures InOrder(states[i].pool)
  {
    if i > 0 {
      RunKeeps(states, steps, a, b, i - 1);
      HandOffsInOrder(states, steps, a, b, i - 1);
      InOrderKept(states[i - 1], steps[i - 1]);
    }
  }

  // While someone waits, a newcomer is served at once exactly when a slot is free; in a run
  // without a failed creation no slot is, so nobody overtakes.
  lemma OvertakingExact(states: seq<System>, steps: seq<Step>, a: Option<nat>, b: Option<nat>, i: nat,
        ms: int, inFiber: bool)
    requires Run(states, steps, a, b) && i < |states| && states[i].pool.waiters != []
    ensures var p := states[i].pool;
      var outcome := Get(p, ms, inFiber).1;
      && p.idle == []
      && (outcome.Reuse? || outcome.Create? <==> p.totalCount < p.maxConn)
      && (states[i].failures == 0 ==> outcome.Refuse? || outcome.Wait?)
  {
    RunKeeps(states, steps, a, b, i);
  }

  // A failed creation frees a slot without telling the waiters: the newcomer takes it while
  // the earlier waiter stays parked.
  lemma FailedCreationLetsNewcomerPass() returns (states: seq<System>, steps: seq<Step>)
    ensures Run(states, steps, Some(1), None)
    ensures var s := states[|states| - 1];
      && s.failures == 1 && s.pool.waiters == [0] && |s.pool.records| == 1 && !s.pool.records[0].done
      && Get(s.pool, 3000, true).1.Create?
  {
    steps := [GetStep(3000, true), GetStep(3000, true), CreateFailed];
    var s0 := Start(Some(1), None);
    var s1 := Apply(s0, steps[0]);
    var s2 := Apply(s1, steps[1]);
    var s3 := Apply(s2, steps[2]);
    states := [s0, s1, s2, s3];
  }
}
