// The scheduler as a step machine. Each step is one critical section (or one access to an
// atomic counter or fiber state) of run(), schedule(), stop() or the idle fiber, so a run
// is an arbitrary interleaving of the workers, outside threads and the stopping thread.
module SchedulerMachine {
  import opened Options
  import opened SchedulerQueues

  datatype Source = Local | Global | Stolen

  // Where a worker is inside run().
  datatype Phase =
    | Outside                                                 // has not entered run()
    | Top                                                     // about to call popLocalTask
    | AskGlobal                                               // popLocalTask found nothing
    | AskSteal                                                // popGlobalTask found nothing
    | Stealing(start: nat, offset: nat)                       // in stealTask's victim loop
    | Splicing(task: Task, batch: seq<Task>, source: Source)  // batch not yet on the own queue
    | Drawn(task: Task, source: Source)                       // a draw succeeded
    | Chosen(task: Task)                                      // counted and active, not resumed
    | Running(fiber: nat, isCallback: bool)                   // inside swapIn
    | SwitchedOut(fiber: nat, isCallback: bool)               // swapIn has returned
    | Settling(fiber: nat, isCallback: bool)                  // no longer active
    | NoTask                                                  // nothing drawn in this round
    | CheckLocals(next: nat)                                  // stopping() scans local queues
    | IdleWork                                                // the idle fiber may schedule
    | Left                                                    // run() has returned

  // idleDone: the idle fiber is TERM. cbFiber: the finished fiber kept for the next callback.
  datatype Worker = Worker(phase: Phase, proc: nat, idleDone: bool, cbFiber: Option<nat>)

  // Counters of one Processor.
  datatype Stats = Stats(
    scheduled: nat, executed: nat,
    localExecuted: nat, globalExecuted: nat, stealExecuted: nat,
    globalPulled: nat, globalBatches: nat,
    stolen: nat, stealBatches: nat, stealAttempts: nat, stealFails: nat)

  // tokens: running or parked fibers whose registered wake-up has not been enqueued yet.
  // enqueued, executed, dropped: every entry ever pushed, counted as executed, or thrown
  // away by popLocalTask because its fiber was EXEC.
  datatype State = State(
    tids: seq<int>,
    global: seq<Task>, locals: seq<seq<Task>>,
    workers: seq<Worker>,
    fibers: FiberTable, tokens: set<nat>,
    active: int, nextProcessor: nat, nextSteal: nat,
    autoStop: bool, stopping: bool,
    stats: seq<Stats>, globalScheduled: nat,
    enqueued: multiset<Task>, executed: multiset<Task>, dropped: multiset<Task>)

  const ZERO_STATS := Stats(0, 0, 0, 0, 0, 0, 0, 0, 0, 0, 0)

  // One Processor per worker thread; m_stopping starts out true.
  function InitialState(tids: seq<int>): State {
    State(tids, [], seq(|tids|, _ => []), seq(|tids|, _ => Worker(Outside, 0, false, None)),
      map[], {}, 0, 0, 0, false, true,
      seq(|tids|, _ => ZERO_STATS), 0, multiset{}, multiset{}, multiset{})
  }

  datatype Step =
    | Start                              // start()
    | RaiseAutoStop                      // stop(): m_autoStop = true
    | RaiseStopping                      // stop(): m_stopping = true
    | EnterRun(w: nat)                   // bindProcessor()
    | Enqueue(caller: Option<nat>, work: Work, thread: int, forceGlobal: bool)
    | GrantWake(w: nat)                  // the running fiber registers one wake-up
    | DrawLocal(w: nat)
    | DrawGlobal(w: nat)
    | BeginSteal(w: nat)
    | TryVictim(w: nat)
    | Splice(w: nat)
    | Account(w: nat)
    | SkipDead(w: nat)                   // drawn fiber already finished
    | Resume(w: nat, spare: nat)         // swapIn
    | YieldHold(w: nat)
    | YieldReady(w: nat)
    | Finish(w: nat, failed: bool)
    | SwitchBack(w: nat)                 // --m_activeThreadCount
    | Settle(w: nat)                     // state check after the switch
    | Idle(w: nat)                       // idle-fiber test, first half of stopping()
    | RefuseStop(w: nat)                 // timers or pending events forbid stopping
    | CheckLocal(w: nat)                 // processorQueuesEmpty(), one processor
    | LeaveIdle(w: nat)

  predicate Shape(s: State) {
    && |s.tids| == |s.workers| == |s.locals| == |s.stats|
    && 0 < |s.tids|
    && (forall w :: 0 <= w < |s.workers| ==> InRange(s.workers[w], |s.locals|))
  }

  predicate InRange(wk: Worker, n: nat) {
    && wk.proc < n
    && (wk.phase.Stealing? ==> wk.phase.start < n)
    && (wk.phase.CheckLocals? ==> wk.phase.next < n)
  }

  predicate StopSet(s: State) { s.autoStop && s.stopping }

  // The fiber a worker has swapped in and not yet let go of.
  function Executing(p: Phase): Option<nat> {
    match p
    case Running(f, _) => Some(f)
    case SwitchedOut(f, _) => Some(f)
    case Settling(f, _) => Some(f)
    case _ => None
  }

  predicate At(s: State, w: nat) { w < |s.workers| }

  // A round-robin cursor over n processors.
  function Cursor(x: nat, n: nat): (r: nat)
    requires 0 < n
    ensures r < n && (x < n ==> r == x)
  {
    x % n
  }

  function Victim(s: State, p: Phase): nat
    requires Shape(s) && p.Stealing?
  {
    Cursor(p.start + p.offset, |s.locals|)
  }

  predicate Alive(work: Work, fibers: FiberTable) {
    work.FiberWork? ==> work.fiber !in fibers || (fibers[work.fiber] != Term && fibers[work.fiber] != Except)
  }

  // The fiber swapIn is called on: the entry's own, the kept callback fiber, or a new one.
  function ResumeTarget(wk: Worker, spare: nat): nat
    requires wk.phase.Chosen?
  {
    match wk.phase.task.work
    case FiberWork(f) => f
    case CallbackWork(_) => if wk.cbFiber.Some? then wk.cbFiber.value else spare
  }

  predicate Enabled(s: State, step: Step)
    requires Shape(s)
  {
    match step
    case Start => !s.autoStop && s.stopping
    case RaiseAutoStop => true
    case RaiseStopping => s.autoStop
    case EnterRun(w) => At(s, w) && s.workers[w].phase.Outside?
    case Enqueue(caller, work, thread, forceGlobal) =>
      caller.Some? ==> At(s, caller.value) && (s.workers[caller.value].phase.Running? || s.workers[caller.value].phase.IdleWork?)
    case GrantWake(w) => At(s, w) && s.workers[w].phase.Running?
    case DrawLocal(w) => At(s, w) && s.workers[w].phase.Top?
    case DrawGlobal(w) => At(s, w) && s.workers[w].phase.AskGlobal?
    case BeginSteal(w) => At(s, w) && s.workers[w].phase.AskSteal?
    case TryVictim(w) => At(s, w) && s.workers[w].phase.Stealing?
    case Splice(w) => At(s, w) && s.workers[w].phase.Splicing?
    case Account(w) => At(s, w) && s.workers[w].phase.Drawn?
    case SkipDead(w) => At(s, w) && s.workers[w].phase.Chosen? && !Alive(s.workers[w].phase.task.work, s.fibers)
    case Resume(w, spare) =>
      && At(s, w) && s.workers[w].phase.Chosen? && Alive(s.workers[w].phase.task.work, s.fibers)
      && (s.workers[w].phase.task.work.CallbackWork? && s.workers[w].cbFiber.None? ==> spare !in s.fibers)
      && SwapInAllowed(s, w, spare)
    case YieldHold(w) => At(s, w) && s.workers[w].phase.Running?
    case YieldReady(w) => At(s, w) && s.workers[w].phase.Running?
    case Finish(w, failed) => At(s, w) && s.workers[w].phase.Running?
    case SwitchBack(w) => At(s, w) && s.workers[w].phase.SwitchedOut?
    case Settle(w) => At(s, w) && s.workers[w].phase.Settling?
    case Idle(w) => At(s, w) && s.workers[w].phase.NoTask?
    case RefuseStop(w) => At(s, w) && s.workers[w].phase.NoTask? && !s.workers[w].idleDone
    case CheckLocal(w) => At(s, w) && s.workers[w].phase.CheckLocals?
    case LeaveIdle(w) => At(s, w) && s.workers[w].phase.IdleWork?
  }

  // swapIn asserts that the fiber is not EXEC; a failed assertion aborts the process.
  predicate SwapInAllowed(s: State, w: nat, spare: nat)
    requires Shape(s) && At(s, w) && s.workers[w].phase.Chosen?
  {
    var f := ResumeTarget(s.workers[w], spare);
    f in s.fibers ==> s.fibers[f] != Exec
  }

  function SetPhase(s: State, w: nat, p: Phase): State
    requires At(s, w)
  {
    s.(workers := s.workers[w := s.workers[w].(phase := p)])
  }

  // Pushes t on the queue of processor p, or on the global queue.
  function PushLocal(s: State, p: nat, t: Task): State
    requires p < |s.locals| == |s.stats|
  {
    s.(locals := s.locals[p := s.locals[p] + [t]],
       stats := s.stats[p := s.stats[p].(scheduled := s.stats[p].scheduled + 1)],
       enqueued := s.enqueued + multiset{t})
  }

  function PushGlobal(s: State, t: Task): State {
    s.(global := s.global + [t], globalScheduled := s.globalScheduled + 1, enqueued := s.enqueued + multiset{t})
  }

  // scheduleNoLock and scheduleGlobalNoLock: an unpinned entry of a bound worker goes to its
  // own queue unless it is forced onto the global one.
  function DoEnqueue(s: State, caller: Option<nat>, work: Work, thread: int, forceGlobal: bool): State
    requires Shape(s) && Enabled(s, Enqueue(caller, work, thread, forceGlobal))
  {
    var origin := if caller.Some? then ByWorker(caller.value) else External(!StopSet(s));
    var t := Task(work, thread, origin);
    var s1 := match work
      case CallbackWork(_) => s
      case FiberWork(f) =>
        s.(fibers := if f in s.fibers then s.fibers else s.fibers[f := Init], tokens := s.tokens - {f});
    if caller.Some? && thread == -1 && !forceGlobal then PushLocal(s1, s.workers[caller.value].proc, t)
    else PushGlobal(s1, t)
  }

  function DoDrawLocal(s: State, w: nat): State
    requires Shape(s) && At(s, w)
  {
    var p := s.workers[w].proc;
    var r := PopLocal(s.locals[p], s.fibers);
    var s1 := s.(locals := s.locals[p := r.rest], dropped := s.dropped + multiset(r.dropped));
    SetPhase(s1, w, if r.got.Some? then Drawn(r.got.value, Local) else AskGlobal)
  }

  function DoPull(s: State, w: nat, r: GlobalPop): State
    requires Shape(s) && At(s, w) && r.got.Some?
  {
    var p := s.workers[w].proc;
    var st := s.stats[p];
    SetPhase(
      s.(global := r.rest,
         stats := s.stats[p := st.(globalPulled := st.globalPulled + |r.batch| + 1, globalBatches := st.globalBatches + 1)]),
      w, Splicing(r.got.value, r.batch, Global))
  }

  function DoDrawGlobal(s: State, w: nat): State
    requires Shape(s) && At(s, w)
  {
    var r := PopGlobal(s.global, s.tids[w], true, s.fibers);
    if r.got.None? then SetPhase(s, w, AskSteal) else DoPull(s, w, r)
  }

  function DoStealFails(s: State, w: nat): State
    requires Shape(s) && At(s, w)
  {
    var p := s.workers[w].proc;
    SetPhase(s.(stats := s.stats[p := s.stats[p].(stealFails := s.stats[p].stealFails + 1)]), w, NoTask)
  }

  function DoStealStarts(s: State, w: nat): State
    requires Shape(s) && At(s, w)
  {
    var p := s.workers[w].proc;
    SetPhase(
      s.(stats := s.stats[p := s.stats[p].(stealAttempts := s.stats[p].stealAttempts + 1)], nextSteal := s.nextSteal + 1),
      w, Stealing(Cursor(s.nextSteal, |s.locals|), 0))
  }

  function DoStealAlone(s: State, w: nat): State
    requires Shape(s) && At(s, w)
  {
    var p := s.workers[w].proc;
    var st := s.stats[p];
    SetPhase(
      s.(stats := s.stats[p := st.(stealAttempts := st.stealAttempts + 1, stealFails := st.stealFails + 1)]), w, NoTask)
  }

  function DoBeginSteal(s: State, w: nat): State
    requires Shape(s) && At(s, w)
  {
    if |s.locals| <= 1 then DoStealAlone(s, w) else DoStealStarts(s, w)
  }

  function DoLoot(s: State, w: nat, v: nat, r: Loot): State
    requires Shape(s) && At(s, w) && v < |s.locals| && r.stolen != []
  {
    var p := s.workers[w].proc;
    var st := s.stats[p];
    SetPhase(
      s.(locals := s.locals[v := r.left],
         stats := s.stats[p := st.(stolen := st.stolen + |r.stolen|, stealBatches := st.stealBatches + 1)]),
      w, Splicing(r.stolen[0], r.stolen[1..], Stolen))
  }

  function DoTryVictim(s: State, w: nat): State
    requires Shape(s) && At(s, w) && s.workers[w].phase.Stealing?
  {
    var ph := s.workers[w].phase;
    if ph.offset >= |s.locals| then DoStealFails(s, w)
    else
      var v := Victim(s, ph);
      var r := Steal(s.locals[v], s.fibers);
      if v == s.workers[w].proc || r.stolen == [] then SetPhase(s, w, Stealing(ph.start, ph.offset + 1))
      else DoLoot(s, w, v, r)
  }

  function DoSplice(s: State, w: nat): State
    requires Shape(s) && At(s, w) && s.workers[w].phase.Splicing?
  {
    var p := s.workers[w].proc;
    var ph := s.workers[w].phase;
    SetPhase(s.(locals := s.locals[p := s.locals[p] + ph.batch]), w, Drawn(ph.task, ph.source))
  }

  function CountDraw(st: Stats, source: Source): Stats {
    var st1 := st.(executed := st.executed + 1);
    match source
    case Local => st1.(localExecuted := st.localExecuted + 1)
    case Global => st1.(globalExecuted := st.globalExecuted + 1)
    case Stolen => st1.(stealExecuted := st.stealExecuted + 1)
  }

  function DoAccount(s: State, w: nat): State
    requires Shape(s) && At(s, w) && s.workers[w].phase.Drawn?
  {
    var p := s.workers[w].proc;
    var ph := s.workers[w].phase;
    SetPhase(s.(stats := s.stats[p := CountDraw(s.stats[p], ph.source)],
                active := s.active + 1,
                executed := s.executed + multiset{ph.task}), w, Chosen(ph.task))
  }

  function DoResume(s: State, w: nat, spare: nat): State
    requires Shape(s) && At(s, w) && s.workers[w].phase.Chosen?
  {
    var wk := s.workers[w];
    var f := ResumeTarget(wk, spare);
    var cb := wk.phase.task.work.CallbackWork?;
    s.(fibers := s.fibers[f := Exec],
       workers := s.workers[w := wk.(phase := Running(f, cb), cbFiber := if cb then None else wk.cbFiber)])
  }

  function DoYield(s: State, w: nat, state: FiberState): State
    requires At(s, w) && s.workers[w].phase.Running?
  {
    var ph := s.workers[w].phase;
    SetPhase(s.(fibers := s.fibers[ph.fiber := state]), w, SwitchedOut(ph.fiber, ph.isCallback))
  }

  // After the switch back: READY is scheduled again, a parked fiber becomes HOLD, and a
  // finished callback fiber is reset to INIT and kept.
  function DoRequeue(s: State, w: nat): State
    requires Shape(s) && At(s, w) && s.workers[w].phase.Settling?
  {
    var wk := s.workers[w];
    SetPhase(PushLocal(s, wk.proc, Task(FiberWork(wk.phase.fiber), -1, ByWorker(w))), w, Top)
  }

  function DoRetire(s: State, w: nat): State
    requires Shape(s) && At(s, w) && s.workers[w].phase.Settling?
  {
    var wk := s.workers[w];
    if wk.phase.isCallback then
      s.(fibers := s.fibers[wk.phase.fiber := Init],
         workers := s.workers[w := wk.(phase := Top, cbFiber := Some(wk.phase.fiber))])
    else SetPhase(s, w, Top)
  }

  function DoPark(s: State, w: nat): State
    requires Shape(s) && At(s, w) && s.workers[w].phase.Settling?
  {
    SetPhase(s.(fibers := s.fibers[s.workers[w].phase.fiber := Hold]), w, Top)
  }

  function StateOf(fibers: FiberTable, f: nat): FiberState {
    if f in fibers then fibers[f] else Hold
  }

  function DoSettle(s: State, w: nat): State
    requires Shape(s) && At(s, w) && s.workers[w].phase.Settling?
  {
    match StateOf(s.fibers, s.workers[w].phase.fiber)
    case Ready => DoRequeue(s, w)
    case Term => DoRetire(s, w)
    case Except => DoRetire(s, w)
    case _ => DoPark(s, w)
  }

  // bindProcessor(): the round-robin cursor picks the worker's processor.
  function DoEnterRun(s: State, w: nat): State
    requires Shape(s) && At(s, w)
  {
    s.(workers := s.workers[w := s.workers[w].(phase := Top, proc := Cursor(s.nextProcessor, |s.locals|))],
       nextProcessor := s.nextProcessor + 1)
  }

  function DoSkipDead(s: State, w: nat): State
    requires At(s, w)
  {
    SetPhase(s.(active := s.active - 1), w, Top)
  }

  function DoSwitchBack(s: State, w: nat): State
    requires At(s, w) && s.workers[w].phase.SwitchedOut?
  {
    SetPhase(s.(active := s.active - 1), w, Settling(s.workers[w].phase.fiber, s.workers[w].phase.isCallback))
  }

  function DoIdle(s: State, w: nat): State
    requires Shape(s) && At(s, w)
  {
    if s.workers[w].idleDone then SetPhase(s, w, Left)
    else if StopSet(s) && s.active == 0 && s.global == [] then SetPhase(s, w, CheckLocals(0))
    else SetPhase(s, w, IdleWork)
  }

  function DoCheckLocal(s: State, w: nat): State
    requires Shape(s) && At(s, w) && s.workers[w].phase.CheckLocals?
  {
    var i := s.workers[w].phase.next;
    if s.locals[i] != [] then SetPhase(s, w, IdleWork)
    else if i + 1 < |s.locals| then SetPhase(s, w, CheckLocals(i + 1))
    else s.(workers := s.workers[w := s.workers[w].(phase := Top, idleDone := true)])
  }

  function Apply(s: State, step: Step): State
    requires Shape(s) && Enabled(s, step)
  {
    match step
    case Start => s.(stopping := false)
    case RaiseAutoStop => s.(autoStop := true)
    case RaiseStopping => s.(stopping := true)
    case EnterRun(w) => DoEnterRun(s, w)
    case Enqueue(caller, work, thread, forceGlobal) => DoEnqueue(s, caller, work, thread, forceGlobal)
    case GrantWake(w) => s.(tokens := s.tokens + {s.workers[w].phase.fiber})
    case DrawLocal(w) => DoDrawLocal(s, w)
    case DrawGlobal(w) => DoDrawGlobal(s, w)
    case BeginSteal(w) => DoBeginSteal(s, w)
    case TryVictim(w) => DoTryVictim(s, w)
    case Splice(w) => DoSplice(s, w)
    case Account(w) => DoAccount(s, w)
    case SkipDead(w) => DoSkipDead(s, w)
    case Resume(w, spare) => DoResume(s, w, spare)
    case YieldHold(w) => DoYield(s, w, Exec)
    case YieldReady(w) => DoYield(s, w, Ready)
    case Finish(w, failed) => DoYield(s, w, if failed then Except else Term)
    case SwitchBack(w) => DoSwitchBack(s, w)
    case Settle(w) => DoSettle(s, w)
    case Idle(w) => DoIdle(s, w)
    case RefuseStop(w) => SetPhase(s, w, IdleWork)
    case CheckLocal(w) => DoCheckLocal(s, w)
    case LeaveIdle(w) => SetPhase(s, w, Top)
  }

  // A run: the states visited, the first one initial, each next one by an enabled step.
  predicate Run(states: seq<State>, steps: seq<Step>, tids: seq<int>) {
    && 0 < |tids|
    && |states| == |steps| + 1
    && states[0] == InitialState(tids)
    && (forall i :: 0 <= i < |states| ==> Shape(states[i]))
    && (forall i :: 0 <= i < |steps| ==> Enabled(states[i], steps[i]) && states[i + 1] == Apply(states[i], steps[i]))
  }
}
