// Why parking needs its discipline: runs of two workers from the start in which the first
// undisciplined step leads to a fiber on two workers, or to the failed assertion in swapIn.
module SchedulerBreaches {
  import opened Options
  import opened SchedulerQueues
  import opened SchedulerMachine
  import opened SchedulerLedger
  import opened SchedulerFibers

  // A run that is disciplined so far, or one that was until the given step at the given state.
  datatype Story = Sound | Broken(y: State, step: Step)

  ghost predicate Ends(tids: seq<int>, story: Story, s: State) {
    exists states, steps, i: nat :: Told(states, steps, tids, story, i) && states[|steps|] == s
  }

  // The first i steps are disciplined; then the run ends, or the breach comes.
  ghost predicate Told(states: seq<State>, steps: seq<Step>, tids: seq<int>, story: Story, i: nat) {
    && Run(states, steps, tids) && i <= |steps|
    && (forall k :: 0 <= k < i ==> Disciplined(states[k], steps[k]))
    && match story
       case Sound => i == |steps|
       case Broken(y, step) => i < |steps| && states[i] == y && steps[i] == step && !Disciplined(y, step)
  }

  lemma Begin(tids: seq<int>)
    requires 0 < |tids|
    ensures Ends(tids, Sound, InitialState(tids))
  {
    assert Told([InitialState(tids)], [], tids, Sound, 0);
  }

  predicate Follows(s: State, step: Step, t: State) {
    Shape(s) && Enabled(s, step) && t == Apply(s, step) && Shape(t)
  }

  lemma RunOn(states: seq<State>, steps: seq<Step>, tids: seq<int>, step: Step, t: State)
    requires Run(states, steps, tids) && Follows(states[|steps|], step, t)
    ensures Run(states + [t], steps + [step], tids)
    ensures forall k :: 0 <= k < |states| ==> (states + [t])[k] == states[k]
    ensures forall k :: 0 <= k < |steps| ==> (steps + [step])[k] == steps[k]
  {
    hide Apply, Enabled, Shape, InitialState;
  }

  lemma TellOn(states: seq<State>, steps: seq<Step>, tids: seq<int>, story: Story, i: nat, step: Step, t: State)
    requires Told(states, steps, tids, story, i) && Follows(states[|steps|], step, t)
    requires story.Sound? ==> Disciplined(states[|steps|], step)
    ensures Told(states + [t], steps + [step], tids, story, if story.Sound? then i + 1 else i)
  {
    hide Apply, Enabled, Shape, InitialState, Disciplined;
    RunOn(states, steps, tids, step, t);
  }

  lemma Onward(tids: seq<int>, story: Story, s: State, step: Step, t: State)
    requires Ends(tids, story, s) && Follows(s, step, t)
    requires story.Sound? ==> Disciplined(s, step)
    ensures Ends(tids, story, t)
  {
    hide Apply, Enabled, Disciplined, Shape, InitialState;
    var states, steps, i: nat :| Told(states, steps, tids, story, i) && states[|steps|] == s;
    TellOn(states, steps, tids, story, i, step, t);
  }

  lemma Breach(tids: seq<int>, s: State, step: Step, t: State)
    requires Ends(tids, Sound, s) && Follows(s, step, t) && !Disciplined(s, step)
    ensures Ends(tids, Broken(s, step), t)
  {
    hide Apply, Enabled, Disciplined, Shape, InitialState;
    var states, steps, i: nat :| Told(states, steps, tids, Sound, i) && states[|steps|] == s;
    RunOn(states, steps, tids, step, t);
    assert Told(states + [t], steps + [step], tids, Broken(s, step), i);
  }

  // ---- two workers ----

  // All that matters of a state here: both local queues stay empty.
  datatype Picture = Picture(global: seq<Task>, workers: seq<Worker>, fibers: FiberTable, tokens: set<nat>)

  ghost predicate Looks(s: State, p: Picture) {
    && |s.tids| == |s.stats| == |p.workers| == 2 && s.locals == [[], []] && !s.autoStop
    && s.global == p.global && s.workers == p.workers && s.fibers == p.fibers && s.tokens == p.tokens
    && (forall w :: 0 <= w < 2 ==> p.workers[w].proc == w && !p.workers[w].phase.Stealing? && !p.workers[w].phase.CheckLocals?)
  }

  function In(p: Picture, w: nat, phase: Phase): Picture
    requires w < |p.workers|
  {
    p.(workers := p.workers[w := p.workers[w].(phase := phase)])
  }

  function Entry(work: Work): Task { Task(work, -1, External(true)) }

  // Both workers enter run().
  lemma Enters(tids: seq<int>) returns (s: State)
    requires |tids| == 2
    ensures Ends(tids, Sound, s)
    ensures Looks(s, Picture([], [Worker(Top, 0, false, None), Worker(Top, 1, false, None)], map[], {}))
  {
    hide Ends;
    Begin(tids);
    var s0 := InitialState(tids);
    var s1 := DoEnterRun(s0, 0);
    s := DoEnterRun(s1, 1);
    assert s0.locals == [[], []];
    Onward(tids, Sound, s0, EnterRun(0), s1);
    Onward(tids, Sound, s1, EnterRun(1), s);
  }

  // An outside thread schedules an entry.
  lemma Submits(tids: seq<int>, story: Story, s: State, p: Picture, work: Work) returns (t: State)
    requires Ends(tids, story, s) && Looks(s, p)
    requires story.Sound? && work.FiberWork? ==> work.fiber !in p.fibers || work.fiber in p.tokens
    ensures Ends(tids, story, t)
    ensures Looks(t, match work
      case CallbackWork(_) => p.(global := p.global + [Entry(work)])
      case FiberWork(f) =>
        Picture(p.global + [Entry(work)], p.workers, if f in p.fibers then p.fibers else p.fibers[f := Init], p.tokens - {f}))
  {
    hide Ends;
    var step := Enqueue(None, work, -1, false);
    t := DoEnqueue(s, None, work, -1, false);
    Onward(tids, story, s, step, t);
  }

  // A worker finds nothing of its own.
  lemma Asks(tids: seq<int>, story: Story, s: State, p: Picture, w: nat) returns (t: State)
    requires Ends(tids, story, s) && Looks(s, p) && w < 2 && p.workers[w].phase.Top?
    ensures Ends(tids, story, t) && Looks(t, In(p, w, AskGlobal))
  {
    hide Ends;
    t := DoDrawLocal(s, w);
    assert t.locals == s.locals;
    Onward(tids, story, s, DrawLocal(w), t);
  }

  // It pulls the one entry of the global queue.
  lemma Pulls(tids: seq<int>, story: Story, s: State, p: Picture, w: nat, x: Task) returns (t: State)
    requires Ends(tids, story, s) && Looks(s, p) && w < 2 && p.workers[w].phase.AskGlobal?
    requires p.global == [x] && !x.Pinned() && !Busy(x, p.fibers)
    ensures Ends(tids, story, t) && Looks(t, In(p, w, Splicing(x, [], Global)).(global := []))
  {
    hide Ends;
    var r := PopGlobal([x], s.tids[w], true, s.fibers);
    assert Eligible(x, s.tids[w], s.fibers);
    assert FirstEligible([x], s.tids[w], s.fibers) == 0;
    t := DoPull(s, w, r);
    Onward(tids, story, s, DrawGlobal(w), t);
  }

  lemma Splices(tids: seq<int>, story: Story, s: State, p: Picture, w: nat, x: Task) returns (t: State)
    requires Ends(tids, story, s) && Looks(s, p) && w < 2 && p.workers[w].phase == Splicing(x, [], Global)
    ensures Ends(tids, story, t) && Looks(t, In(p, w, Drawn(x, Global)))
  {
    hide Ends;
    t := DoSplice(s, w);
    assert s.locals[w] + [] == s.locals[w];
    Onward(tids, story, s, Splice(w), t);
  }

  // And chooses it.
  lemma Chooses(tids: seq<int>, story: Story, s: State, p: Picture, w: nat, x: Task) returns (t: State)
    requires Ends(tids, story, s) && Looks(s, p) && w < 2 && p.workers[w].phase.AskGlobal?
    requires p.global == [x] && !x.Pinned() && !Busy(x, p.fibers)
    ensures Ends(tids, story, t) && Looks(t, In(p, w, Chosen(x)).(global := []))
  {
    hide Ends, PopGlobal;
    var p1 := In(p, w, Splicing(x, [], Global)).(global := []);
    t := Pulls(tids, story, s, p, w, x);
    t := Splices(tids, story, t, p1, w, x);
    t := Accounts(tids, story, t, In(p1, w, Drawn(x, Global)), w, x);
    assert In(In(p1, w, Drawn(x, Global)), w, Chosen(x)) == In(p, w, Chosen(x)).(global := []);
  }

  lemma Accounts(tids: seq<int>, story: Story, s: State, p: Picture, w: nat, x: Task) returns (t: State)
    requires Ends(tids, story, s) && Looks(s, p) && w < 2 && p.workers[w].phase == Drawn(x, Global)
    ensures Ends(tids, story, t) && Looks(t, In(p, w, Chosen(x)))
  {
    hide Ends;
    t := DoAccount(s, w);
    Onward(tids, story, s, Account(w), t);
  }

  // It swaps in the entry's fiber, or a new one for a callback.
  lemma Resumes(tids: seq<int>, story: Story, s: State, p: Picture, w: nat, x: Task, f: nat) returns (t: State)
    requires Ends(tids, story, s) && Looks(s, p) && w < 2 && p.workers[w].phase == Chosen(x)
    requires For(x, f) || (x.work.CallbackWork? && p.workers[w].cbFiber.None? && f !in p.fibers)
    requires f in p.fibers ==> p.fibers[f] in {Init, Hold, Ready}
    ensures Ends(tids, story, t)
    ensures Looks(t, In(p, w, Running(f, x.work.CallbackWork?)).(fibers := p.fibers[f := Exec]))
  {
    hide Ends;
    t := DoResume(s, w, f);
    Onward(tids, story, s, Resume(w, f), t);
    assert t.workers == In(p, w, Running(f, x.work.CallbackWork?)).workers;
  }

  // Two workers with nothing in flight: no wake-up is outstanding that is not in the queue.
  lemma QuietQueue(s: State, p: Picture, f: nat)
    requires Looks(s, p) && forall w :: 0 <= w < 2 ==> Flight(p.workers[w].phase) == multiset{}
    ensures NoWake(ViewOf(s), f) <==> f !in p.tokens && forall t :: t in p.global ==> !For(t, f)
  {
    hide Flight, For;
    assert FlightAll(s.workers) == Flight(p.workers[0].phase) + FlightAll(s.workers[1..]);
    assert FlightAll(s.workers[1..]) == Flight(p.workers[1].phase) + FlightAll(s.workers[1..][1..]);
    assert BagAll(s.locals) == multiset{} by {
      assert s.locals[1..] == [[]] && s.locals[1..][1..] == [];
      assert BagAll(s.locals[1..]) == multiset(s.locals[1..][0]) + BagAll(s.locals[1..][1..]);
    }
    assert Live(s) == multiset(p.global);
  }

  // The running fiber registers its wake-up.
  lemma Grants(tids: seq<int>, story: Story, s: State, p: Picture, w: nat, f: nat, cb: bool) returns (t: State)
    requires Ends(tids, story, s) && Looks(s, p) && w < 2 && p.workers[w].phase == Running(f, cb)
    requires p.workers[1 - w].phase.Top? && p.global == [] && f !in p.tokens
    ensures Ends(tids, story, t) && Looks(t, p.(tokens := p.tokens + {f}))
  {
    hide Ends, NoWake;
    QuietQueue(s, p, f);
    t := s.(tokens := s.tokens + {f});
    Onward(tids, story, s, GrantWake(w), t);
  }

  lemma Yields(tids: seq<int>, story: Story, s: State, p: Picture, w: nat, f: nat) returns (t: State)
    requires Ends(tids, story, s) && Looks(s, p) && w < 2 && p.workers[w].phase == Running(f, false)
    ensures Ends(tids, story, t)
    ensures Looks(t, In(p, w, SwitchedOut(f, false)).(fibers := p.fibers[f := Exec]))
  {
    hide Ends;
    t := DoYield(s, w, Exec);
    Onward(tids, story, s, YieldHold(w), t);
  }

  // A breach: a fiber with an outstanding wake-up is left READY.
  lemma LeavesReady(tids: seq<int>, s: State, p: Picture, w: nat, f: nat, cb: bool) returns (t: State)
    requires Ends(tids, Sound, s) && Looks(s, p) && w < 2 && p.workers[w].phase == Running(f, cb)
    requires p.workers[1 - w].phase.Top? || p.workers[1 - w].phase.AskGlobal?
    requires f in p.tokens || exists x :: x in p.global && For(x, f)
    ensures Ends(tids, Broken(s, YieldReady(w)), t)
    ensures Looks(t, In(p, w, SwitchedOut(f, cb)).(fibers := p.fibers[f := Ready]))
  {
    hide Ends, NoWake, For, FlightAll, BagAll;
    t := DoYield(s, w, Ready);
    QuietQueue(s, p, f);
    Breach(tids, s, YieldReady(w), t);
  }

  // Another one: such a fiber finishes.
  lemma LeavesDone(tids: seq<int>, s: State, p: Picture, w: nat, f: nat, cb: bool) returns (t: State)
    requires Ends(tids, Sound, s) && Looks(s, p) && w < 2 && p.workers[w].phase == Running(f, cb)
    requires p.workers[1 - w].phase.Top? || p.workers[1 - w].phase.AskGlobal?
    requires f in p.tokens || exists x :: x in p.global && For(x, f)
    ensures Ends(tids, Broken(s, Finish(w, false)), t)
    ensures Looks(t, In(p, w, SwitchedOut(f, cb)).(fibers := p.fibers[f := Term]))
  {
    hide Ends, NoWake, For, FlightAll, BagAll;
    t := DoYield(s, w, Term);
    QuietQueue(s, p, f);
    Breach(tids, s, Finish(w, false), t);
  }

  lemma Switches(tids: seq<int>, story: Story, s: State, p: Picture, w: nat, f: nat, cb: bool) returns (t: State)
    requires Ends(tids, story, s) && Looks(s, p) && w < 2 && p.workers[w].phase == SwitchedOut(f, cb)
    ensures Ends(tids, story, t) && Looks(t, In(p, w, Settling(f, cb)))
  {
    hide Ends;
    t := DoSwitchBack(s, w);
    Onward(tids, story, s, SwitchBack(w), t);
  }

  // run() settles a parked fiber, or a finished callback fiber that it keeps.
  lemma Settles(tids: seq<int>, story: Story, s: State, p: Picture, w: nat, f: nat, cb: bool) returns (t: State)
    requires Ends(tids, story, s) && Looks(s, p) && w < 2 && p.workers[w].phase == Settling(f, cb) && f in p.fibers
    requires p.fibers[f] == if cb then Term else Exec
    ensures Ends(tids, story, t)
    ensures Looks(t, p.(fibers := p.fibers[f := if cb then Init else Hold],
      workers := p.workers[w := p.workers[w].(phase := Top, cbFiber := if cb then Some(f) else p.workers[w].cbFiber)]))
  {
    hide Ends;
    t := DoSettle(s, w);
    Onward(tids, story, s, Settle(w), t);
  }

  lemma Parks(tids: seq<int>, story: Story, s: State, p: Picture, w: nat, f: nat) returns (t: State)
    requires Ends(tids, story, s) && Looks(s, p) && w < 2 && p.workers[w].phase == Running(f, false)
    ensures Ends(tids, story, t) && Looks(t, In(p, w, Top).(fibers := p.fibers[f := Hold]))
  {
    hide Ends;
    var p1 := In(p, w, SwitchedOut(f, false)).(fibers := p.fibers[f := Exec]);
    t := Yields(tids, story, s, p, w, f);
    t := Switches(tids, story, t, p1, w, f, false);
    var p2 := In(p1, w, Settling(f, false));
    t := Settles(tids, story, t, p2, w, f, false);
    assert p2.(fibers := p2.fibers[f := Hold], workers := p2.workers[w := p2.workers[w].(phase := Top, cbFiber := p2.workers[w].cbFiber)])
      == In(p, w, Top).(fibers := p.fibers[f := Hold]);
  }

  // ---- what each breach leads to ----

  // Worker 0 runs fiber f and has registered and queued its wake-up; worker 1 is about to draw.
  function Woken(f: nat): Picture {
    Picture([Entry(FiberWork(f))], [Worker(Running(f, false), 0, false, None), Worker(Top, 1, false, None)], map[f := Exec], {})
  }

  lemma Wakes(tids: seq<int>, f: nat) returns (s: State)
    requires |tids| == 2
    ensures Ends(tids, Sound, s) && Looks(s, Woken(f))
  {
    hide Ends, Looks;
    var x := Entry(FiberWork(f));
    var p := Picture([], [Worker(Top, 0, false, None), Worker(Top, 1, false, None)], map[], {});
    s := Enters(tids);
    s := Submits(tids, Sound, s, p, FiberWork(f));
    var p1 := Picture([x], p.workers, map[f := Init], {});
    assert p1 == Picture(p.global + [x], p.workers, p.fibers[f := Init], p.tokens - {f});
    s := Asks(tids, Sound, s, p1, 0);
    var p2 := In(p1, 0, AskGlobal);
    s := Chooses(tids, Sound, s, p2, 0, x);
    var p3 := In(p2, 0, Chosen(x)).(global := []);
    s := Resumes(tids, Sound, s, p3, 0, x, f);
    var p4 := In(p3, 0, Running(f, false)).(fibers := p3.fibers[f := Exec]);
    s := Grants(tids, Sound, s, p4, 0, f, false);
    var p5 := p4.(tokens := p4.tokens + {f});
    s := Submits(tids, Sound, s, p5, FiberWork(f));
    assert Picture(p5.global + [x], p5.workers, p5.fibers, p5.tokens - {f}) == Woken(f);
  }

  // Both workers are inside the fiber.
  predicate Twice(z: State, f: nat) {
    |z.workers| == 2 && Executing(z.workers[0].phase) == Executing(z.workers[1].phase) == Some(f)
  }

  // A fiber with a queued wake-up that yields READY instead of HOLD is resumed by a second
  // worker before the first one lets go.
  lemma ReadyWithWakeRunsTwice(tids: seq<int>, f: nat)
    requires |tids| == 2
    ensures exists y, z :: Ends(tids, Broken(y, YieldReady(0)), z) && Twice(z, f)
  {
    hide Ends;
    var x := Entry(FiberWork(f));
    var y := Wakes(tids, f);
    y := Asks(tids, Sound, y, Woken(f), 1);
    var p := In(Woken(f), 1, AskGlobal);
    assert x in p.global && For(x, f);
    var z := LeavesReady(tids, y, p, 0, f, false);
    var story := Broken(y, YieldReady(0));
    var p1 := In(p, 0, SwitchedOut(f, false)).(fibers := p.fibers[f := Ready]);
    z := Chooses(tids, story, z, p1, 1, x);
    z := Resumes(tids, story, z, In(p1, 1, Chosen(x)).(global := []), 1, x, f);
    assert Twice(z, f);
  }

  // Some worker has chosen an entry, and the assertion in swapIn fails for it.
  ghost predicate Aborts(z: State, w: nat) {
    Shape(z) && At(z, w) && z.workers[w].phase.Chosen? && forall spare :: !SwapInAllowed(z, w, spare)
  }

  // Two entries of one fiber: both workers choose one, and one of them resumes the fiber.
  lemma BothChoose(tids: seq<int>, story: Story, s: State, p: Picture, f: nat) returns (z: State)
    requires Ends(tids, story, s) && Looks(s, p) && p.global == [Entry(FiberWork(f))]
    requires p.workers[0].phase.Top? && p.workers[1].phase == Chosen(Entry(FiberWork(f)))
    requires f in p.fibers && p.fibers[f] == Hold
    ensures Ends(tids, story, z) && Aborts(z, 0)
  {
    hide Ends;
    var x := Entry(FiberWork(f));
    z := Asks(tids, story, s, p, 0);
    var p1 := In(p, 0, AskGlobal);
    z := Chooses(tids, story, z, p1, 0, x);
    z := Resumes(tids, story, z, In(p1, 0, Chosen(x)).(global := []), 1, x, f);
  }

  // The woken fiber parks, and worker 1 chooses the entry.
  lemma ParkAndChoose(tids: seq<int>, story: Story, s: State, f: nat, tokens: set<nat>) returns (t: State)
    requires Ends(tids, story, s) && Looks(s, Woken(f).(tokens := tokens))
    ensures Ends(tids, story, t)
    ensures Looks(t, Picture([], [Worker(Top, 0, false, None), Worker(Chosen(Entry(FiberWork(f))), 1, false, None)], map[f := Hold], tokens))
  {
    hide Ends, Looks;
    var x := Entry(FiberWork(f));
    var p := Woken(f).(tokens := tokens);
    t := Parks(tids, story, s, p, 0, f);
    var p1 := In(p, 0, Top).(fibers := p.fibers[f := Hold]);
    t := Asks(tids, story, t, p1, 1);
    var p2 := In(p1, 1, AskGlobal);
    t := Chooses(tids, story, t, p2, 1, x);
    assert In(p2, 1, Chosen(x)).(global := [])
      == Picture([], [Worker(Top, 0, false, None), Worker(Chosen(x), 1, false, None)], map[f := Hold], tokens);
  }

  // A fiber that registers a second wake-up while one is queued is chosen by two workers; the
  // one that comes second fails the assertion.
  lemma SecondWakeAborts(tids: seq<int>, f: nat)
    requires |tids| == 2
    ensures exists y, z :: Ends(tids, Broken(y, GrantWake(0)), z) && Aborts(z, 0)
  {
    hide Ends, Looks, Aborts;
    var y := Wakes(tids, f);
    var z := GrantsAgain(tids, y, f);
    var story := Broken(y, GrantWake(0));
    z := ParkAndChoose(tids, story, z, f, {f});
    var p := Picture([], [Worker(Top, 0, false, None), Worker(Chosen(Entry(FiberWork(f))), 1, false, None)], map[f := Hold], {f});
    z := Submits(tids, story, z, p, FiberWork(f));
    z := BothChoose(tids, story, z, Picture(p.global + [Entry(FiberWork(f))], p.workers, p.fibers, p.tokens - {f}), f);
  }

  lemma GrantsAgain(tids: seq<int>, s: State, f: nat) returns (t: State)
    requires Ends(tids, Sound, s) && Looks(s, Woken(f))
    ensures Ends(tids, Broken(s, GrantWake(0)), t) && Looks(t, Woken(f).(tokens := {f}))
  {
    hide Ends, NoWake;
    QuietQueue(s, Woken(f), f);
    assert Entry(FiberWork(f)) in Woken(f).global && For(Entry(FiberWork(f)), f);
    t := s.(tokens := s.tokens + {f});
    Breach(tids, s, GrantWake(0), t);
  }

  // So does a fiber that somebody schedules without a registered wake-up.
  lemma StrayEntryAborts(tids: seq<int>, f: nat)
    requires |tids| == 2
    ensures exists y, z :: Ends(tids, Broken(y, Enqueue(None, FiberWork(f), -1, false)), z) && Aborts(z, 0)
  {
    hide Ends, Looks, Aborts;
    var y := Wakes(tids, f);
    y := ParkAndChoose(tids, Sound, y, f, {});
    var p := Picture([], [Worker(Top, 0, false, None), Worker(Chosen(Entry(FiberWork(f))), 1, false, None)], map[f := Hold], {});
    var z := Strays(tids, y, p, f);
    var story := Broken(y, Enqueue(None, FiberWork(f), -1, false));
    z := BothChoose(tids, story, z, p.(global := p.global + [Entry(FiberWork(f))]), f);
  }

  lemma Strays(tids: seq<int>, s: State, p: Picture, f: nat) returns (t: State)
    requires Ends(tids, Sound, s) && Looks(s, p) && f in p.fibers && f !in p.tokens
    ensures Ends(tids, Broken(s, Enqueue(None, FiberWork(f), -1, false)), t)
    ensures Looks(t, p.(global := p.global + [Entry(FiberWork(f))]))
  {
    hide Ends;
    t := DoEnqueue(s, None, FiberWork(f), -1, false);
    Breach(tids, s, Enqueue(None, FiberWork(f), -1, false), t);
  }

  // Worker 0 runs a callback in fiber f, which has registered a wake-up.
  function Called(f: nat): Picture {
    Picture([], [Worker(Running(f, true), 0, false, None), Worker(Top, 1, false, None)], map[f := Exec], {f})
  }

  lemma Calls(tids: seq<int>, f: nat) returns (s: State)
    requires |tids| == 2
    ensures Ends(tids, Sound, s) && Looks(s, Called(f))
  {
    hide Ends, Looks;
    var x := Entry(CallbackWork(0));
    var p := Picture([], [Worker(Top, 0, false, None), Worker(Top, 1, false, None)], map[], {});
    s := Enters(tids);
    s := Submits(tids, Sound, s, p, CallbackWork(0));
    var p1 := p.(global := p.global + [x]);
    s := Asks(tids, Sound, s, p1, 0);
    var p2 := In(p1, 0, AskGlobal);
    s := Chooses(tids, Sound, s, p2, 0, x);
    var p3 := In(p2, 0, Chosen(x)).(global := []);
    s := Resumes(tids, Sound, s, p3, 0, x, f);
    var p4 := In(p3, 0, Running(f, true)).(fibers := p3.fibers[f := Exec]);
    s := Grants(tids, Sound, s, p4, 0, f, true);
    assert p4.(tokens := p4.tokens + {f}) == Called(f);
  }

  // A callback that finishes with a wake-up registered: its fiber is kept for the next callback
  // and woken as well. Worker 1 resumes it by the wake-up; worker 0, which wants it for a
  // callback, meets it EXEC, which the assertions in reset and in swapIn refuse.
  lemma FinishWithWakeAborts(tids: seq<int>, f: nat)
    requires |tids| == 2
    ensures exists y, z :: Ends(tids, Broken(y, Finish(0, false)), z) && Aborts(z, 0)
  {
    hide Ends, Looks, Aborts;
    var (x, c) := (Entry(FiberWork(f)), Entry(CallbackWork(1)));
    var y := Calls(tids, f);
    var story := Broken(y, Finish(0, false));
    var z := LeavesDone(tids, y, Called(f), 0, f, true);
    var p1 := In(Called(f), 0, SwitchedOut(f, true)).(fibers := map[f := Term]);
    assert map[f := Exec][f := Term] == map[f := Term];
    z := Switches(tids, story, z, p1, 0, f, true);
    var ps := In(p1, 0, Settling(f, true));
    z := Settles(tids, story, z, ps, 0, f, true);
    var p2 := Picture([], [Worker(Top, 0, false, Some(f)), Worker(Top, 1, false, None)], map[f := Init], {f});
    assert p2 == ps.(fibers := ps.fibers[f := Init], workers := ps.workers[0 := ps.workers[0].(phase := Top, cbFiber := Some(f))]);
    z := Wanted(tids, story, z, p2, f, x, c);
  }

  // The end of that run.
  lemma Wanted(tids: seq<int>, story: Story, s: State, p: Picture, f: nat, x: Task, c: Task) returns (z: State)
    requires Ends(tids, story, s) && Looks(s, p) && x == Entry(FiberWork(f)) && c == Entry(CallbackWork(1))
    requires p == Picture([], [Worker(Top, 0, false, Some(f)), Worker(Top, 1, false, None)], map[f := Init], {f})
    ensures Ends(tids, story, z) && Aborts(z, 0)
  {
    hide Ends;
    z := Submits(tids, story, s, p, FiberWork(f));
    var p1 := Picture([x], p.workers, p.fibers, {});
    assert Picture(p.global + [x], p.workers, p.fibers, p.tokens - {f}) == p1;
    z := Asks(tids, story, z, p1, 1);
    var p2 := In(p1, 1, AskGlobal);
    z := Chooses(tids, story, z, p2, 1, x);
    var p3 := In(p2, 1, Chosen(x)).(global := []);
    z := Submits(tids, story, z, p3, CallbackWork(1));
    var p4 := p3.(global := p3.global + [c]);
    z := Asks(tids, story, z, p4, 0);
    var p5 := In(p4, 0, AskGlobal);
    z := Chooses(tids, story, z, p5, 0, c);
    z := Resumes(tids, story, z, In(p5, 0, Chosen(c)).(global := []), 1, x, f);
  }
}
