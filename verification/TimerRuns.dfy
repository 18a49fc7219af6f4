// Runs of the timer manager: when a deadline is missed, one notification per look at the set,
// and silenced timers stay silent.
module TimerRuns {
  import opened Options
  import opened TimerSet

  // reported is the deadline that the last getNextTimer answered for (WORD if there was no
  // timer); notifications and looks count calls of onTimerInsertedAtFront and getNextTimer.
  datatype System = System(s: State, clock: nat, reported: nat, notifications: nat, looks: nat)

  // One critical section each. addTimer and listExpiredCb read the clock before they take
  // the lock, so theirs may be an old reading; refresh and reset read it under the lock.
  datatype Step =
    | Tick(time: nat)
    | AddTimer(a: nat, now: nat, ms: nat, cb: nat, recurring: bool)
    | CancelTimer(a: nat)
    | RefreshTimer(a: nat)
    | ResetTimer(a: nat, ms: nat, fromNow: bool)
    | Look
    | Collect(now: nat, sentinel: nat)

  function DoOutcome(y: System, r: Outcome): System {
    y.(s := r.state, notifications := y.notifications + if r.notified then 1 else 0)
  }

  function DoLook(y: System): System
    requires Known(y.s.timers, y.s.order)
  {
    assert y.s.order != [] ==> y.s.order[0] in y.s.timers;
    y.(s := NextTimer(y.s, y.clock).0, looks := y.looks + 1,
       reported := if y.s.order == [] then WORD else y.s.timers[y.s.order[0]].next)
  }

  function DoCollect(y: System, now: nat, sentinel: nat): System
    requires Known(y.s.timers, y.s.order)
  {
    y.(s := ListExpired(y.s, now, sentinel).0)
  }

  // No sum of a start and an interval wraps, callbacks are not empty, and addresses in use are
  // not handed out again. The clock may read anything.
  ghost predicate Possible(y: System, step: Step) {
    match step
    case Tick(time) => true
    case AddTimer(a, now, ms, _, _) => a !in y.s.timers && now + ms < WORD
    case CancelTimer(a) => a in y.s.timers
    case RefreshTimer(a) => a in y.s.timers && y.clock + y.s.timers[a].ms < WORD
    case ResetTimer(a, ms, fromNow) =>
      && a in y.s.timers && y.clock + ms < WORD
      && (!fromNow && a in y.s.order ==> y.s.timers[a].next - y.s.timers[a].ms + ms < WORD)
    case Look => true
    case Collect(now, _) => now < WORD && forall a :: a in y.s.order ==> a in y.s.timers && now + y.s.timers[a].ms < WORD
  }

  // The clock does not go back, readings are no later than it, and no rollover is seen.
  ghost predicate Steady(y: System, step: Step) {
    match step
    case Tick(time) => y.clock <= time
    case AddTimer(_, now, _, _, _) => now <= y.clock
    case Collect(now, _) => now <= y.clock && !RolledOver(y.s.previous, now)
    case _ => true
  }

  function Apply(y: System, step: Step): System
    requires y.s.Inv() && Possible(y, step)
  {
    match step
    case Tick(time) => y.(clock := time)
    case AddTimer(a, now, ms, cb, recurring) => DoOutcome(y, Add(y.s, a, now, ms, Some(cb), recurring))
    case CancelTimer(a) => DoOutcome(y, Cancel(y.s, a))
    case RefreshTimer(a) => DoOutcome(y, Refresh(y.s, a, y.clock))
    case ResetTimer(a, ms, fromNow) => DoOutcome(y, Reset(y.s, a, y.clock, ms, fromNow))
    case Look => DoLook(y)
    case Collect(now, sentinel) => DoCollect(y, now, sentinel)
  }

  // The timers whose callbacks a step hands out.
  function Fires(y: System, step: Step): seq<nat>
    requires y.s.Inv()
  {
    match step
    case Collect(now, sentinel) => ListExpired(y.s, now, sentinel).1
    case _ => []
  }

  // The intervals run from readings of the clock, and the last answer of getNextTimer is
  // still good or somebody was told.
  ghost predicate Fresh(s: State, clock: nat) {
    forall a :: a in s.order ==> a in s.timers && s.timers[a].next <= clock + s.timers[a].ms
  }

  ghost predicate Safe(s: State, reported: nat) {
    s.tickled || forall a :: a in s.order ==> a in s.timers && reported <= s.timers[a].next
  }

  // Once per look, somebody is told.
  ghost predicate Thrifty(y: System) {
    y.notifications <= y.looks + if y.s.tickled then 1 else 0
  }

  ghost predicate Inv(y: System) {
    y.s.Inv() && Fresh(y.s, y.clock) && Safe(y.s, y.reported) && Thrifty(y)
  }

  function Initial(now: nat): System {
    System(State(map[], [], false, now), now, 0, 0, 0)
  }

  lemma InitialHolds(now: nat)
    ensures Inv(Initial(now))
  {
  }

  // When a step lets a deadline slip before the reported one with nobody told: a refresh by a
  // clock that has gone back, or a rollover that re-arms a recurring timer too early.
  ghost predicate Misses(y: System, step: Step) {
    match step
    case RefreshTimer(a) =>
      a in y.s.order && a in y.s.timers && !y.s.tickled && y.clock + y.s.timers[a].ms < y.reported
    case Collect(now, _) =>
      && RolledOver(y.s.previous, now) && !y.s.tickled
      && exists a :: a in y.s.order && a in y.s.timers && y.s.timers[a].recurring && now + y.s.timers[a].ms < y.reported
    case _ => false
  }

  // What a step does to the four parts of the invariant.
  ghost predicate Steps(y: System, z: System, misses: bool, steady: bool) {
    && z.s.Inv()
    && (Safe(y.s, y.reported) ==> (Safe(z.s, z.reported) <==> !misses))
    && (steady && Fresh(y.s, y.clock) ==> Fresh(z.s, z.clock))
    && (Thrifty(y) ==> Thrifty(z))
  }

  // A timer put back no earlier than some bound cannot break that bound unannounced.
  lemma PutFrontSafe(s: State, a: nat, reported: nat)
    requires a in s.timers && Known(s.timers, s.order) && Sorted(s.timers, s.order) && a !in s.order
    requires Safe(s, reported)
    ensures Safe(PutFront(s, a).state, reported)
  {
    hide Sorted, PutFront;
    PutFrontKeeps(s, a);
  }

  lemma AddSteps(y: System, a: nat, now: nat, ms: nat, cb: nat, recurring: bool)
    requires y.s.Inv() && Possible(y, AddTimer(a, now, ms, cb, recurring))
    ensures Steps(y, DoOutcome(y, Add(y.s, a, now, ms, Some(cb), recurring)), false, now <= y.clock)
  {
    hide Sorted, PutFront;
    AddKeeps(y.s, a, now, ms, Some(cb), recurring);
    DeadlineExact(now, ms);
    var timers := y.s.timers[a := Timer(ms, Deadline(now, ms), Some(cb), recurring)];
    assert forall i :: 0 <= i < |y.s.order| ==> y.s.order[i] in y.s.order;
    SortedFrame(y.s.timers, timers, y.s.order);
    PutFrontKeeps(y.s.(timers := timers), a);
    if Safe(y.s, y.reported) {
      PutFrontSafe(y.s.(timers := timers), a, y.reported);
    }
  }

  lemma CancelSteps(y: System, a: nat)
    requires y.s.Inv() && a in y.s.timers
    ensures Steps(y, DoOutcome(y, Cancel(y.s, a)), false, true)
  {
    hide Sorted, Erase;
    CancelKeeps(y.s, a);
    EraseExact(y.s.timers, y.s.order, a);
  }

  // refresh notifies nobody: it relies on moving a deadline no earlier.
  lemma RefreshSteps(y: System, a: nat)
    requires y.s.Inv() && Possible(y, RefreshTimer(a))
    ensures Steps(y, DoOutcome(y, Refresh(y.s, a, y.clock)), Misses(y, RefreshTimer(a)), true)
  {
    hide Sorted, Erase, Insert, Deadline, Refresh;
    RefreshKeeps(y.s, a, y.clock);
    DeadlineExact(y.clock, y.s.timers[a].ms);
  }

  lemma ResetSteps(y: System, a: nat, ms: nat, fromNow: bool)
    requires y.s.Inv() && Possible(y, ResetTimer(a, ms, fromNow))
    ensures Steps(y, DoOutcome(y, Reset(y.s, a, y.clock, ms, fromNow)), false, true)
  {
    hide Sorted, Erase, PutFront, Deadline;
    ResetKeeps(y.s, a, y.clock, ms, fromNow);
    if a in y.s.order && !(ms == y.s.timers[a].ms && !fromNow) {
      var t := y.s.timers[a];
      var start := if fromNow then y.clock else (t.next - t.ms) % WORD;
      DeadlineExact(start, ms);
      var timers := y.s.timers[a := t.(ms := ms, next := Deadline(start, ms))];
      var s := y.s.(timers := timers, order := Erase(y.s.order, a));
      EraseExact(y.s.timers, y.s.order, a);
      EraseMembers(y.s.order, a);
      SortedFrame(y.s.timers, timers, s.order);
      KnownAfterErase(y.s.timers, y.s.order, a, timers[a]);
      PutFrontKeeps(s, a);
      if Safe(y.s, y.reported) {
        PutFrontSafe(s, a, y.reported);
      }
    }
  }

  lemma LookSteps(y: System)
    requires y.s.Inv()
    ensures Steps(y, DoLook(y), false, true)
  {
    hide Sorted;
    if y.s.order != [] {
      FirstIsLeast(y.s.timers, y.s.order);
    }
  }

  // Without a rollover a re-armed timer was due, so its new deadline is no earlier than its
  // old one; after one it may be.
  lemma CollectSteps(y: System, now: nat, sentinel: nat)
    requires y.s.Inv() && Possible(y, Collect(now, sentinel))
    ensures Steps(y, DoCollect(y, now, sentinel), Misses(y, Collect(now, sentinel)), Steady(y, Collect(now, sentinel)))
  {
    hide Sorted, ListExpired, RolledOver, Deadline;
    ListKeeps(y.s, now, sentinel);
    ExpiredExact(y.s, now, sentinel);
    forall a | a in y.s.order ensures now + y.s.timers[a].ms < WORD && Deadline(now, y.s.timers[a].ms) == now + y.s.timers[a].ms {
      DeadlineExact(now, y.s.timers[a].ms);
    }
  }

  // Under any clock, a step lets a deadline slip exactly when Misses says so.
  lemma StepExact(y: System, step: Step)
    requires y.s.Inv() && Possible(y, step)
    ensures Steps(y, Apply(y, step), Misses(y, step), Steady(y, step))
  {
    hide DoOutcome, DoLook, DoCollect, Steps;
    match step
    case Tick(time) => TickSteps(y, time);
    case AddTimer(a, now, ms, cb, recurring) => AddSteps(y, a, now, ms, cb, recurring);
    case CancelTimer(a) => CancelSteps(y, a);
    case RefreshTimer(a) => RefreshSteps(y, a);
    case ResetTimer(a, ms, fromNow) => ResetSteps(y, a, ms, fromNow);
    case Look => LookSteps(y);
    case Collect(now, sentinel) => CollectSteps(y, now, sentinel);
  }

  lemma TickSteps(y: System, time: nat)
    requires y.s.Inv()
    ensures Steps(y, y.(clock := time), false, y.clock <= time)
  {
  }

  // A steady clock misses nothing.
  lemma SteadyMissesNothing(y: System, step: Step)
    requires Inv(y) && Possible(y, step) && Steady(y, step)
    ensures !Misses(y, step) && Inv(Apply(y, step))
  {
    hide Sorted, RolledOver, Apply;
    StepExact(y, step);
  }

  // The guarantee of a rollover: it stays good exactly when somebody was told before, or every
  // recurring interval reaches the reported deadline from the new reading.
  lemma RolloverSafeExact(y: System, now: nat, sentinel: nat)
    requires Inv(y) && Possible(y, Collect(now, sentinel)) && RolledOver(y.s.previous, now)
    ensures Safe(DoCollect(y, now, sentinel).s, y.reported) <==>
      y.s.tickled || forall a :: a in y.s.order && y.s.timers[a].recurring ==> y.reported <= now + y.s.timers[a].ms
  {
    hide Sorted, RolledOver, ListExpired;
    CollectSteps(y, now, sentinel);
  }

  // ---- runs ----

  ghost predicate Run(y: System, steps: seq<Step>)
    decreases |steps|
  {
    steps == [] || (y.s.Inv() && Possible(y, steps[0]) && Run(Apply(y, steps[0]), steps[1..]))
  }

  ghost function Last(y: System, steps: seq<Step>): System
    requires Run(y, steps)
    decreases |steps|
  {
    if steps == [] then y else Last(Apply(y, steps[0]), steps[1..])
  }

  // All callbacks handed out, by timer, in order.
  ghost function Fired(y: System, steps: seq<Step>): seq<nat>
    requires Run(y, steps)
    decreases |steps|
  {
    if steps == [] then [] else Fires(y, steps[0]) + Fired(Apply(y, steps[0]), steps[1..])
  }

  ghost predicate SteadyRun(y: System, steps: seq<Step>)
    requires Run(y, steps)
    decreases |steps|
  {
    steps == [] || (Steady(y, steps[0]) && SteadyRun(Apply(y, steps[0]), steps[1..]))
  }

  lemma {:induction false} RunKeeps(y: System, steps: seq<Step>)
    requires Inv(y) && Run(y, steps) && SteadyRun(y, steps)
    ensures Inv(Last(y, steps))
    decreases |steps|
  {
    if steps != [] {
      SteadyMissesNothing(y, steps[0]);
      RunKeeps(Apply(y, steps[0]), steps[1..]);
    }
  }

  ghost predicate MissesNothing(y: System, steps: seq<Step>)
    requires Run(y, steps)
    decreases |steps|
  {
    steps == [] || (!Misses(y, steps[0]) && MissesNothing(Apply(y, steps[0]), steps[1..]))
  }

  ghost predicate SafeThroughout(y: System, steps: seq<Step>)
    requires Run(y, steps)
    decreases |steps|
  {
    Safe(y.s, y.reported) && (steps == [] || SafeThroughout(Apply(y, steps[0]), steps[1..]))
  }

  // Under any clock, no deadline slips in a run exactly when none of its steps misses one.
  lemma {:induction false} RunSafeExact(y: System, steps: seq<Step>)
    requires y.s.Inv() && Safe(y.s, y.reported) && Run(y, steps)
    ensures SafeThroughout(y, steps) <==> MissesNothing(y, steps)
    decreases |steps|
  {
    if steps != [] {
      StepExact(y, steps[0]);
      if Misses(y, steps[0]) {
        SafeFirst(Apply(y, steps[0]), steps[1..]);
      } else {
        RunSafeExact(Apply(y, steps[0]), steps[1..]);
      }
    }
  }

  lemma SafeFirst(y: System, steps: seq<Step>)
    requires Run(y, steps)
    ensures SafeThroughout(y, steps) ==> Safe(y.s, y.reported)
  {
  }

  // From the start of the manager, under a steady clock: in every reachable state a timer is in the set exactly
  // when its callback is live, no interval exceeds its deadline, either somebody was notified
  // or no deadline is before the one last reported, and notifications never outnumber looks
  // by more than one.
  lemma DeadlinesNeverMissed(now: nat, steps: seq<Step>)
    requires Run(Initial(now), steps) && SteadyRun(Initial(now), steps)
    ensures var y := Last(Initial(now), steps);
      && (forall a :: a in y.s.timers ==> (a in y.s.order <==> y.s.timers[a].cb.Some?))
      && (forall a :: a in y.s.order ==> a in y.s.timers && y.s.timers[a].ms <= y.s.timers[a].next <= y.clock + y.s.timers[a].ms)
      && (y.s.tickled || forall a :: a in y.s.order ==> a in y.s.timers && y.reported <= y.s.timers[a].next)
      && y.notifications <= y.looks + 1
  {
    InitialHolds(now);
    RunKeeps(Initial(now), steps);
    var y := Last(Initial(now), steps);
    forall a | a in y.s.order ensures a in y.s.timers {
    }
  }

  ghost predicate Silent(y: System, a: nat) {
    a in y.s.timers && y.s.timers[a].cb == None
  }

  ghost predicate OneShot(y: System, a: nat) {
    a in y.s.timers && !y.s.timers[a].recurring
  }

  // A step leaves a silent timer silent and does not fire it; a one-shot timer that it fires
  // is silent afterwards, and it fires it once.
  lemma StepSilence(y: System, step: Step, a: nat)
    requires y.s.Inv() && Possible(y, step) && a in y.s.timers
    ensures Silent(y, a) ==> Silent(Apply(y, step), a) && a !in Fires(y, step)
    ensures OneShot(y, a) ==> OneShot(Apply(y, step), a)
    ensures OneShot(y, a) && a in Fires(y, step) ==> Silent(Apply(y, step), a)
    ensures multiset(Fires(y, step))[a] <= 1
  {
    hide Sorted, ListExpired, Insert, Erase, RolledOver, Deadline;
    match step
    case Collect(now, sentinel) => {
      ExpiredExact(y.s, now, sentinel);
      var n := |ListExpired(y.s, now, sentinel).1|;
      SortedDistinct(y.s.timers, y.s.order, n);
      assert ListExpired(y.s, now, sentinel).1 == y.s.order[..n];
      DistinctOnce(y.s.order[..n], a);
    }
    case _ =>
  }

  lemma {:induction false} DistinctOnce(xs: seq<nat>, a: nat)
    requires Distinct(xs)
    ensures multiset(xs)[a] == if a in xs then 1 else 0
  {
    if xs != [] {
      assert xs == [xs[0]] + xs[1..];
      assert forall i :: 0 <= i < |xs[1..]| ==> xs[1..][i] == xs[i + 1];
      DistinctOnce(xs[1..], a);
    }
  }

  // A cancelled timer, or one that fired its only time, is never listed again, whatever the
  // clock does.
  lemma {:induction false} StaysSilent(y: System, steps: seq<Step>, a: nat)
    requires Run(y, steps) && Silent(y, a)
    ensures a !in Fired(y, steps) && Silent(Last(y, steps), a)
    decreases |steps|
  {
    if steps != [] {
      StepSilence(y, steps[0], a);
      StaysSilent(Apply(y, steps[0]), steps[1..], a);
    }
  }

  lemma CancelSilences(y: System, a: nat, steps: seq<Step>)
    requires a in y.s.timers && Run(y, [CancelTimer(a)] + steps)
    ensures a !in Fired(y, [CancelTimer(a)] + steps)
  {
    var run := [CancelTimer(a)] + steps;
    assert run[0] == CancelTimer(a) && run[1..] == steps;
    CancelKeeps(y.s, a);
    StaysSilent(Apply(y, CancelTimer(a)), steps, a);
  }

  // A timer that does not recur fires at most once in any run.
  lemma {:induction false} OneShotFiresOnce(y: System, steps: seq<Step>, a: nat)
    requires Run(y, steps) && OneShot(y, a)
    ensures multiset(Fired(y, steps))[a] <= 1
    decreases |steps|
  {
    if steps != [] {
      StepSilence(y, steps[0], a);
      var next := Apply(y, steps[0]);
      if a in Fires(y, steps[0]) {
        StaysSilent(next, steps[1..], a);
      } else {
        OneShotFiresOnce(next, steps[1..], a);
      }
    }
  }

  // ---- the clock ----

  // The rollover test fires exactly when the clock reads less than the last time by more than
  // an hour, or by anything at all while the last time is still within its first hour.
  lemma RolloverExact(previous: nat, now: nat)
    requires previous < 0x1_0000_0000_0000_0000
    ensures RolledOver(previous, now) <==> now < previous && (previous < 3600000 || now < previous - 3600000)
  {
    if previous < HOUR {
      assert (previous - HOUR) % WORD == previous - HOUR + WORD;
    } else {
      assert (previous - HOUR) % WORD == previous - HOUR;
    }
  }

  // A clock that goes back by an hour or less, from a reading of an hour or more, makes no timer
  // fire before its deadline.
  lemma SmallStepBackFiresNothingEarly(s: State, now: nat, sentinel: nat)
    requires s.Ordered() && 3600000 <= s.previous < 0x1_0000_0000_0000_0000 && s.previous <= now + 3600000
    ensures forall a :: a in ListExpired(s, now, sentinel).1 ==> a in s.timers && s.timers[a].next <= now
  {
    hide Sorted, ListExpired, RolledOver;
    RolloverExact(s.previous, now);
    ExpiredExact(s, now, sentinel);
  }

  lemma {:induction false} RunSnoc(y: System, steps: seq<Step>, step: Step)
    requires Run(y, steps) && y.s.Inv() && Last(y, steps).s.Inv() && Possible(Last(y, steps), step)
    ensures Run(y, steps + [step]) && Last(y, steps + [step]) == Apply(Last(y, steps), step)
    decreases |steps|
  {
    hide Apply, Possible;
    if steps == [] {
      assert [step][1..] == [] && Last(Apply(y, step), []) == Apply(y, step);
    } else {
      StepExact(y, steps[0]);
      RunSnoc(Apply(y, steps[0]), steps[1..], step);
      assert (steps + [step])[1..] == steps[1..] + [step];
    }
  }

  const ARMED := State(map[7 := Timer(5, 9000005, Some(0), true)], [7], false, 9000000)

  // A recurring timer is added and reported.
  lemma Arms()
    ensures var (y, s0) := (Initial(9000000), AddTimer(7, 9000000, 5, 0, true));
      Run(y, [s0, Look]) && Last(y, [s0, Look]) == System(ARMED, 9000000, 9000005, 1, 1) && ARMED.Inv()
  {
    var (y, s0) := (Initial(9000000), AddTimer(7, 9000000, 5, 0, true));
    assert Apply(y, s0) == System(ARMED.(tickled := true), 9000000, 0, 1, 0);
    assert [s0, Look][1..] == [Look] && [Look][1..] == [];
    assert Apply(Apply(y, s0), Look) == System(ARMED, 9000000, 9000005, 1, 1);
  }

  // Collected at a reading more than an hour back, it is armed before the reported deadline.
  lemma Slips(y: System)
    requires y == System(ARMED, 1000000, 9000005, 1, 1) && ARMED.Inv()
    ensures Possible(y, Collect(1000000, 0)) && Misses(y, Collect(1000000, 0))
    ensures var z := Apply(y, Collect(1000000, 0));
      z.reported == 9000005 && 7 in z.s.timers && z.s.timers[7].next == 1000005 && !Safe(z.s, z.reported)
  {
    hide RolledOver, ListExpired;
    RolloverExact(9000000, 1000000);
    ExpiredExact(ARMED, 1000000, 0);
    assert 7 in ARMED.order;
    CollectSteps(y, 1000000, 0);
  }

  // A run in which the clock goes back by more than two hours: the timer is added, reported and
  // collected at the new reading, and is then due before the reported deadline with nobody told.
  lemma RolloverCanMiss()
    ensures var steps := [AddTimer(7, 9000000, 5, 0, true), Look, Tick(1000000), Collect(1000000, 0)];
      && Run(Initial(9000000), steps)
      && var y := Last(Initial(9000000), steps);
         && 7 in y.s.timers && y.s.timers[7].next == 1000005 && y.reported == 9000005
         && !Safe(y.s, y.reported)
  {
    hide Apply, Misses, Run, Last, Safe;
    var (y, two) := (Initial(9000000), [AddTimer(7, 9000000, 5, 0, true), Look]);
    Arms();
    var y2 := System(ARMED, 9000000, 9000005, 1, 1);
    RunSnoc(y, two, Tick(1000000));
    Ticks(y2, 1000000);
    Slips(y2.(clock := 1000000));
    RunSnoc(y, two + [Tick(1000000)], Collect(1000000, 0));
    assert two + [Tick(1000000)] + [Collect(1000000, 0)]
        == [AddTimer(7, 9000000, 5, 0, true), Look, Tick(1000000), Collect(1000000, 0)];
  }

  lemma Ticks(y: System, time: nat)
    requires y.s.Inv()
    ensures Apply(y, Tick(time)) == y.(clock := time)
  {
  }
}
