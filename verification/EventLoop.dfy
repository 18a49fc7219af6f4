// IOManager as an object with a dispatch loop, and runs of its operations.
module EventLoop {
  import opened Options
  import opened FdEvents

  // ---- runs ----

  // An entry of epoll_wait's result: the tickle pipe, or an fd with what is ready on it.
  datatype Report = Tickle | Ready(fd: nat, ready: set<Event>, trouble: bool, refused: bool)

  datatype Step =
    | Adding(fd: nat, e: Event, callback: bool, refused: bool)
    | Deleting(fd: nat, e: Event, refused: bool)
    | Cancelling(fd: nat, e: Event, refused: bool)
    | CancellingAll(fd: nat, refused: bool)
    | Dispatching(report: Report)

  ghost predicate InTable(s: State, r: Report) {
    r.Tickle? || r.fd < |s.fds|
  }

  function Deliver(s: State, r: Report): Result
    requires InTable(s, r)
  {
    match r
    case Tickle => Done(s, true)
    case Ready(fd, ready, trouble, refused) => Dispatch(s, fd, ready, trouble, refused)
  }

  ghost function Exec(s: State, step: Step): Result
    requires Inv(s) && (step.Dispatching? ==> InTable(s, step.report))
  {
    match step
    case Adding(fd, e, callback, refused) => AddEvent(s, fd, e, callback, refused)
    case Deleting(fd, e, refused) => DelEvent(s, fd, e, refused)
    case Cancelling(fd, e, refused) => CancelEvent(s, fd, e, refused)
    case CancellingAll(fd, refused) => CancelAll(s, fd, refused)
    case Dispatching(r) => Deliver(s, r)
  }

  // What the callers owe: no event is registered twice, and what epoll reports on an fd with
  // a waiter is still registered when the loop gets to it.
  ghost predicate Disciplined(s: State, step: Step) {
    match step
    case Adding(fd, e, _, _) => fd < |s.fds| ==> e !in s.fds[fd].events
    case Dispatching(r) =>
      r.Ready? ==>
        && r.fd < |s.fds|
        && var actual := Actual(s, r.fd, r.ready, r.trouble);
           (actual * s.fds[r.fd].events != {} ==> actual <= s.fds[r.fd].events)
    case _ => true
  }

  ghost predicate Run(s: State, steps: seq<Step>)
    decreases |steps|
  {
    steps == [] ||
    (Inv(s) && Disciplined(s, steps[0]) && Exec(s, steps[0]).Done? && Run(Exec(s, steps[0]).s, steps[1..]))
  }

  ghost function Last(s: State, steps: seq<Step>): State
    requires Run(s, steps)
    decreases |steps|
  {
    if steps == [] then s else Last(Exec(s, steps[0]).s, steps[1..])
  }

  // A disciplined step never crashes and keeps everything in agreement.
  lemma StepKeeps(s: State, step: Step)
    requires Inv(s) && Disciplined(s, step)
    ensures Exec(s, step).Done? && Inv(Exec(s, step).s)
  {
    hide Inv, AddEvent, DelEvent, CancelEvent, CancelAll, Dispatch;
    match step
    case Adding(fd, e, callback, refused) => AddExact(s, fd, e, callback, refused);
    case Deleting(fd, e, refused) => DelExact(s, fd, e, refused);
    case Cancelling(fd, e, refused) => CancelExact(s, fd, e, refused);
    case CancellingAll(fd, refused) => CancelAllExact(s, fd, refused);
    case Dispatching(r) =>
      if r.Ready? {
        DispatchExact(s, r.fd, r.ready, r.trouble, r.refused);
      }
  }

  function Initial(): State {
    Empty(32)
  }

  function Empty(n: nat): State {
    State(Blank(n), 0, map[], 0, [], [])
  }

  lemma EmptyHolds(n: nat)
    requires 2 <= n
    ensures Inv(Empty(n))
  {
    hide Blank, Total, Waiting;
    NothingWaits();
    BlankAdds([], n, 0);
    assert [] + Blank(n) == Blank(n);
    forall id: nat ensures Once(Empty(n), id) {
      BlankAdds([], n, id);
    }
    forall fd: nat ensures Interest(Empty(n), fd) {
    }
  }

  lemma NothingWaits()
    ensures Total([]) == 0 && forall id: nat :: Waiting([], id) == 0
  {
  }

  lemma InitialHolds()
    ensures Inv(Initial())
    ensures |Initial().fds| == 32 && forall i :: 0 <= i < 32 ==> Initial().fds[i] == NO_FD
  {
    hide Inv;
    EmptyHolds(32);
  }

  lemma {:induction false} RunKeeps(s: State, steps: seq<Step>)
    requires Inv(s) && Run(s, steps)
    ensures Inv(Last(s, steps))
    decreases |steps|
  {
    hide Inv, Exec;
    if steps != [] {
      StepKeeps(s, steps[0]);
      RunKeeps(Exec(s, steps[0]).s, steps[1..]);
    }
  }

  // In every reachable state of disciplined callers: the bit of an event is set exactly when
  // its context has a scheduler and then it has exactly one of fiber and callback; the kernel
  // watches exactly the bits; the counter is the number of bits; and every registration is
  // waiting, scheduled once or deleted.
  lemma BooksBalance(steps: seq<Step>)
    requires Run(Initial(), steps)
    ensures var s := Last(Initial(), steps);
      && (forall fd, e :: 0 <= fd < |s.fds| ==>
            && (e in s.fds[fd].events <==> s.fds[fd].Get(e).scheduler)
            && (e in s.fds[fd].events ==> (s.fds[fd].Get(e).fiber.Some? <==> s.fds[fd].Get(e).cb.None?))
            && (e !in s.fds[fd].events ==> s.fds[fd].Get(e) == NO_CTX))
      && (forall fd: nat :: Interest(s, fd))
      && s.pending == Total(s.fds)
      && (forall id: nat :: Once(s, id))
  {
    InitialHolds();
    RunKeeps(Initial(), steps);
    var s := Last(Initial(), steps);
    forall fd, e | 0 <= fd < |s.fds|
      ensures
        && (e in s.fds[fd].events <==> s.fds[fd].Get(e).scheduler)
        && (e in s.fds[fd].events ==> (s.fds[fd].Get(e).fiber.Some? <==> s.fds[fd].Get(e).cb.None?))
        && (e !in s.fds[fd].events ==> s.fds[fd].Get(e) == NO_CTX)
    {
      assert s.fds[fd].Inv();
      match e case Read => case Write =>
    }
  }

  lemma FreshTable()
    ensures |Initial().fds| == 32 && forall i :: 0 <= i < 32 ==> Initial().fds[i] == NO_FD
  {
    hide Blank;
  }

  // Without the discipline: a report of both directions reaches the loop after one of them
  // was cancelled by another thread, and the loop's assertion fails.
  lemma StaleReportCrashes()
    ensures var s0 := Initial();
      var s1 := AddEvent(s0, 5, Read, false, false).s;
      var s2 := AddEvent(s1, 5, Write, false, false).s;
      var s3 := CancelEvent(s2, 5, Write, false).s;
      && Inv(s3) && Dispatch(s3, 5, {Read, Write}, false, false).Crash?
  {
    hide Inv, Initial, AddEvent, CancelEvent, Dispatch, HeldOnce;
    InitialHolds();
    var s0 := Initial();
    FreshTable();
    AddExact(s0, 5, Read, false, false);
    var s1 := AddEvent(s0, 5, Read, false, false).s;
    AddExact(s1, 5, Write, false, false);
    var s2 := AddEvent(s1, 5, Write, false, false).s;
    CancelExact(s2, 5, Write, false);
    var s3 := CancelEvent(s2, 5, Write, false).s;
    DispatchExact(s3, 5, {Read, Write}, false, false);
  }

  // ---- the dispatch loop ----

  function DispatchAll(s: State, reports: seq<Report>): Result
    requires forall i :: 0 <= i < |reports| ==> reports[i].Ready? ==> reports[i].fd < |s.fds|
    decreases |reports|
  {
    if reports == [] then Done(s, true)
    else
      var r := Deliver(s, reports[0]);
      DeliverKeepsTable(s, reports[0]);
      if r.Crash? then Crash else DispatchAll(r.s, reports[1..])
  }

  lemma DeliverKeepsTable(s: State, r: Report)
    requires InTable(s, r)
    ensures Deliver(s, r).Done? ==> |Deliver(s, r).s.fds| == |s.fds|
  {
  }

  // Whatever epoll reports, a round of the loop that does not crash keeps the books.
  lemma {:induction false} LoopKeeps(s: State, reports: seq<Report>)
    requires Inv(s) && forall i :: 0 <= i < |reports| ==> reports[i].Ready? ==> reports[i].fd < |s.fds|
    ensures DispatchAll(s, reports).Done? ==> Inv(DispatchAll(s, reports).s)
    decreases |reports|
  {
    hide Inv, Dispatch;
    if reports != [] {
      var r := reports[0];
      DeliverKeepsTable(s, r);
      if r.Ready? {
        DispatchExact(s, r.fd, r.ready, r.trouble, r.refused);
      }
      if Deliver(s, r).Done? {
        LoopKeeps(Deliver(s, r).s, reports[1..]);
      }
    }
  }

  // ---- the object ----

  // A false ok is a failed FIBER_ASSERT: the process is gone and the fields mean nothing.
  class IOManager {
    var fdContexts: seq<Fd>
    var pendingEventCount: int
    var kernel: map<nat, set<Event>>
    var next: nat
    var scheduled: seq<nat>
    var deleted: seq<nat>

    function Abs(): State
      reads this
    {
      State(fdContexts, pendingEventCount, kernel, next, scheduled, deleted)
    }

    predicate Did(r: Result, ok: bool, ret: bool)
      reads this
    {
      if r.Done? then ok && Abs() == r.s && ret == r.ret else !ok
    }

    constructor ()
      ensures Abs() == Initial() && Inv(Abs())
    {
      fdContexts, pendingEventCount, kernel, next, scheduled, deleted := Blank(32), 0, map[], 0, [], [];
      InitialHolds();
    }

    method ContextResize(size: nat)
      modifies this`fdContexts
      ensures Abs() == Resize(old(Abs()), size)
    {
      fdContexts := if size <= |fdContexts| then fdContexts[..size] else fdContexts + Blank(size - |fdContexts|);
    }

    method EpollControl(op: CtlOp, fd: nat, events: set<Event>, refused: bool) returns (rt: int)
      modifies this`kernel
      ensures var ctl := EpollCtl(old(kernel), op, fd, events, refused);
        if ctl.Some? then rt == 0 && kernel == ctl.value else rt == -1 && kernel == old(kernel)
    {
      if refused || (op == Add && fd in kernel) || (op != Add && fd !in kernel) {
        return -1;
      }
      kernel := if op == Del then kernel - {fd} else kernel[fd := events];
      rt := 0;
    }

    method RegisterEvent(fd: nat, e: Event, callback: bool, refused: bool) returns (ok: bool, added: bool)
      requires 2 <= |fdContexts|
      modifies this
      ensures Did(AddEvent(old(Abs()), fd, e, callback, refused), ok, added)
    {
      hide Blank, EpollCtl;
      if |fdContexts| <= fd {
        ContextResize(fd * 3 / 2);
      }
      var f := fdContexts[fd];
      var rt := EpollControl(if f.events != {} then Mod else Add, fd, f.events + {e}, refused);
      if rt != 0 {
        return true, false;
      }
      pendingEventCount := pendingEventCount + 1;
      f := f.(events := f.events + {e});
      if f.Get(e) != NO_CTX {
        return false, false;
      }
      var c := if callback then Ctx(true, None, Some(next)) else Ctx(true, Some(next), None);
      fdContexts := fdContexts[fd := f.Put(e, c)];
      next := next + 1;
      return true, true;
    }

    method RemoveEvent(fd: nat, e: Event, refused: bool) returns (done: bool)
      modifies this
      ensures Did(DelEvent(old(Abs()), fd, e, refused), true, done)
    {
      if |fdContexts| <= fd || e !in fdContexts[fd].events {
        return false;
      }
      var f := fdContexts[fd];
      var left := f.events - {e};
      var rt := EpollControl(if left != {} then Mod else Del, fd, left, refused);
      if rt != 0 {
        return false;
      }
      pendingEventCount := pendingEventCount - 1;
      deleted := deleted + Waiter(f.Get(e));
      fdContexts := fdContexts[fd := f.(events := left).Put(e, NO_CTX)];
      done := true;
    }

    // triggerEvent and the count.
    method TriggerEvent(fd: nat, e: Event) returns (ok: bool)
      requires fd < |fdContexts|
      modifies this`fdContexts, this`scheduled, this`pendingEventCount
      ensures Did(Finish(old(Abs()), fd, e), ok, true)
    {
      var f := fdContexts[fd];
      if e !in f.events {
        return false;
      }
      var c := f.Get(e);
      f := f.(events := f.events - {e});
      if c.cb.Some? {
        scheduled := scheduled + [c.cb.value];
        c := c.(cb := None);
      } else if c.fiber.Some? {
        scheduled := scheduled + [c.fiber.value];
        c := c.(fiber := None);
      }
      c := c.(scheduler := false);
      fdContexts := fdContexts[fd := f.Put(e, c)];
      pendingEventCount := pendingEventCount - 1;
      ok := true;
    }

    method TriggerBoth(fd: nat, which: set<Event>) returns (ok: bool)
      requires fd < |fdContexts|
      modifies this`fdContexts, this`scheduled, this`pendingEventCount
      ensures Did(FinishBoth(old(Abs()), fd, which), ok, true)
    {
      hide Finish;
      ok := true;
      FinishKeepsTable(Abs(), fd, Read);
      if Read in which {
        ok := TriggerEvent(fd, Read);
      }
      if ok && Write in which {
        ok := TriggerEvent(fd, Write);
      }
    }

    method Cancel(fd: nat, e: Event, refused: bool) returns (ok: bool, done: bool)
      modifies this
      ensures Did(CancelEvent(old(Abs()), fd, e, refused), ok, done)
    {
      hide Finish;
      if |fdContexts| <= fd || e !in fdContexts[fd].events {
        return true, false;
      }
      var left := fdContexts[fd].events - {e};
      var rt := EpollControl(if left != {} then Mod else Del, fd, left, refused);
      if rt != 0 {
        return true, false;
      }
      ok := TriggerEvent(fd, e);
      done := true;
    }

    method CancelEverything(fd: nat, refused: bool) returns (ok: bool, done: bool)
      modifies this
      ensures Did(CancelAll(old(Abs()), fd, refused), ok, done)
    {
      hide FinishBoth;
      if |fdContexts| <= fd || fdContexts[fd].events == {} {
        return true, false;
      }
      var rt := EpollControl(Del, fd, {}, refused);
      if rt != 0 {
        return true, false;
      }
      ok := TriggerBoth(fd, fdContexts[fd].events);
      done := true;
    }

    // The loop of idle over what epoll_wait returned.
    method DispatchLoop(reports: seq<Report>) returns (ok: bool)
      requires forall i :: 0 <= i < |reports| ==> reports[i].Ready? ==> reports[i].fd < |fdContexts|
      modifies this
      ensures Did(DispatchAll(old(Abs()), reports), ok, true)
    {
      hide Dispatch, FinishBoth, EpollCtl;
      ok := true;
      assert reports[0..] == reports;
      var i := 0;
      while i < |reports|
        invariant 0 <= i <= |reports| && |fdContexts| == |old(fdContexts)|
        invariant DispatchAll(Abs(), reports[i..]) == DispatchAll(old(Abs()), reports)
      {
        var report := reports[i];
        assert reports[i..][0] == report && reports[i..][1..] == reports[i + 1..];
        DeliverKeepsTable(Abs(), report);
        i := i + 1;
        if report.Tickle? {
          continue;
        }
        ok := DispatchOne(report.fd, report.ready, report.trouble, report.refused);
        if !ok {
          return;
        }
      }
    }

    method DispatchOne(fd: nat, ready: set<Event>, trouble: bool, refused: bool) returns (ok: bool)
      requires fd < |fdContexts|
      modifies this
      ensures Did(Dispatch(old(Abs()), fd, ready, trouble, refused), ok, true)
    {
      hide FinishBoth;
      var f := fdContexts[fd];
      var actual := ready;
      if trouble {
        actual := actual + f.events;
      }
      if f.events * actual == {} {
        return true;
      }
      var left := f.events - actual;
      var rt := EpollControl(if left != {} then Mod else Del, fd, left, refused);
      if rt != 0 {
        return true;
      }
      ok := TriggerBoth(fd, actual);
    }
  }
}
