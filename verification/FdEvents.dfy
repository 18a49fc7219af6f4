// IOManager's bookkeeping of fd events: event bits, waiter contexts, the pending counter and
// the kernel's interest set stay in agreement.
module FdEvents {
  import opened Options

  datatype Event = Read | Write

  // EventContext. A waiter is known by the number of the addEvent that registered it.
  datatype Ctx = Ctx(scheduler: bool, fiber: Option<nat>, cb: Option<nat>) {
    ghost predicate Empty() { !scheduler && fiber.None? && cb.None? }

    // One waiter, a fiber or a callback.
    ghost predicate Waiting() { scheduler && (fiber.Some? <==> cb.None?) }

    ghost function Holds(id: nat): nat {
      (if fiber == Some(id) then 1 else 0) + (if cb == Some(id) then 1 else 0)
    }
  }

  const NO_CTX := Ctx(false, None, None)

  // FdContext.
  datatype Fd = Fd(events: set<Event>, read: Ctx, write: Ctx) {
    function Get(e: Event): Ctx {
      match e case Read => read case Write => write
    }

    function Put(e: Event, c: Ctx): Fd {
      match e case Read => this.(read := c) case Write => this.(write := c)
    }

    ghost predicate Fits(e: Event) {
      if e in events then Get(e).Waiting() else Get(e).Empty()
    }

    ghost predicate Inv() { Fits(Read) && Fits(Write) }

    ghost function Bits(): nat {
      (if Read in events then 1 else 0) + (if Write in events then 1 else 0)
    }

    ghost function Holds(id: nat): nat { read.Holds(id) + write.Holds(id) }
  }

  const NO_FD := Fd({}, NO_CTX, NO_CTX)

  // kernel is the epoll interest set. next numbers the registrations; scheduled and deleted
  // log what became of them.
  datatype State = State(
    fds: seq<Fd>,
    pending: int,
    kernel: map<nat, set<Event>>,
    next: nat,
    scheduled: seq<nat>,
    deleted: seq<nat>)

  // ret is the operation's result; Crash is a failed FIBER_ASSERT.
  datatype Result = Done(s: State, ret: bool) | Crash

  datatype CtlOp = Add | Mod | Del

  predicate Legal(kernel: map<nat, set<Event>>, op: CtlOp, fd: nat) {
    op == Add <==> fd !in kernel
  }

  // epoll_ctl on an open fd: refused stands for errors that have nothing to do with the
  // interest set. None is a failure; the set is then as it was.
  function EpollCtl(kernel: map<nat, set<Event>>, op: CtlOp, fd: nat, events: set<Event>, refused: bool)
    : Option<map<nat, set<Event>>>
  {
    if refused || !Legal(kernel, op, fd) then None
    else if op == Del then Some(kernel - {fd})
    else Some(kernel[fd := events])
  }

  // ---- the operations ----

  function Blank(n: nat): (r: seq<Fd>)
    ensures |r| == n && forall i :: 0 <= i < n ==> r[i] == NO_FD
  {
    if n == 0 then [] else [NO_FD] + Blank(n - 1)
  }

  // contextResize.
  function Resize(s: State, size: nat): State {
    if size <= |s.fds| then s.(fds := s.fds[..size]) else s.(fds := s.fds + Blank(size - |s.fds|))
  }

  // Scheduler::schedule takes the waiter out of the context it is given by address.
  function Trigger(s: State, fd: nat, e: Event): Result
    requires fd < |s.fds|
  {
    var f := s.fds[fd];
    if e !in f.events then Crash
    else
      var c := f.Get(e);
      var left := f.(events := f.events - {e});
      if c.cb.Some? then
        Done(s.(fds := s.fds[fd := left.Put(e, Ctx(false, c.fiber, None))], scheduled := s.scheduled + [c.cb.value]), true)
      else if c.fiber.Some? then
        Done(s.(fds := s.fds[fd := left.Put(e, Ctx(false, None, c.cb))], scheduled := s.scheduled + [c.fiber.value]), true)
      else
        Done(s.(fds := s.fds[fd := left.Put(e, c.(scheduler := false))]), true)
  }

  // Growing the table to one and a half times fd.
  function Grown(s: State, fd: nat): State {
    if |s.fds| > fd then s else Resize(s, fd * 3 / 2)
  }

  function AddEvent(s: State, fd: nat, e: Event, callback: bool, refused: bool): Result
    requires |s.fds| >= 2
  {
    AddInTable(Grown(s, fd), fd, e, callback, refused)
  }

  function AddInTable(s: State, fd: nat, e: Event, callback: bool, refused: bool): Result
    requires fd < |s.fds|
  {
    var f := s.fds[fd];
    var op := if f.events != {} then Mod else Add;
    var ctl := EpollCtl(s.kernel, op, fd, f.events + {e}, refused);
    if ctl.None? then Done(s, false)
    else if f.Get(e) != NO_CTX then Crash
    else
      var c := if callback then Ctx(true, None, Some(s.next)) else Ctx(true, Some(s.next), None);
      var g := f.(events := f.events + {e}).Put(e, c);
      Done(s.(fds := s.fds[fd := g], pending := s.pending + 1, kernel := ctl.value, next := s.next + 1), true)
  }

  function DelEvent(s: State, fd: nat, e: Event, refused: bool): Result {
    if |s.fds| <= fd || e !in s.fds[fd].events then Done(s, false)
    else
      var f := s.fds[fd];
      var left := f.events - {e};
      var ctl := EpollCtl(s.kernel, if left != {} then Mod else Del, fd, left, refused);
      if ctl.None? then Done(s, false)
      else
        Done(s.(fds := s.fds[fd := f.(events := left).Put(e, NO_CTX)], pending := s.pending - 1, kernel := ctl.value,
                deleted := s.deleted + Waiter(f.Get(e))), true)
  }

  // The waiter that a reset context forgets.
  function Waiter(c: Ctx): seq<nat> {
    if c.cb.Some? then [c.cb.value] else if c.fiber.Some? then [c.fiber.value] else []
  }

  // triggerEvent, then --m_pendingEventCount.
  function Finish(s: State, fd: nat, e: Event): Result
    requires fd < |s.fds|
  {
    var r := Trigger(s, fd, e);
    if r.Crash? then Crash else Done(r.s.(pending := r.s.pending - 1), true)
  }

  lemma FinishKeepsTable(s: State, fd: nat, e: Event)
    requires fd < |s.fds|
    ensures Finish(s, fd, e).Done? ==> |Finish(s, fd, e).s.fds| == |s.fds|
  {
  }

  function CancelEvent(s: State, fd: nat, e: Event, refused: bool): Result {
    if |s.fds| <= fd || e !in s.fds[fd].events then Done(s, false)
    else
      var left := s.fds[fd].events - {e};
      var ctl := EpollCtl(s.kernel, if left != {} then Mod else Del, fd, left, refused);
      if ctl.None? then Done(s, false) else Finish(s.(kernel := ctl.value), fd, e)
  }

  // READ first, then WRITE, each if it is among the given events.
  function FinishBoth(s: State, fd: nat, which: set<Event>): Result
    requires fd < |s.fds|
  {
    var r := if Read in which then Finish(s, fd, Read) else Done(s, true);
    FinishKeepsTable(s, fd, Read);
    if r.Done? && Write in which then Finish(r.s, fd, Write) else r
  }

  function CancelAll(s: State, fd: nat, refused: bool): Result {
    if |s.fds| <= fd || s.fds[fd].events == {} then Done(s, false)
    else
      var ctl := EpollCtl(s.kernel, Del, fd, {}, refused);
      if ctl.None? then Done(s, false) else FinishBoth(s.(kernel := ctl.value), fd, s.fds[fd].events)
  }

  // One round of the dispatch loop: an error or hang-up counts as every registered event.
  function Dispatch(s: State, fd: nat, ready: set<Event>, trouble: bool, refused: bool): Result
    requires fd < |s.fds|
  {
    var f := s.fds[fd];
    var actual := if trouble then ready + f.events else ready;
    if f.events * actual == {} then Done(s, true)
    else
      var left := f.events - actual;
      var ctl := EpollCtl(s.kernel, if left != {} then Mod else Del, fd, left, refused);
      if ctl.None? then Done(s, true) else FinishBoth(s.(kernel := ctl.value), fd, actual)
  }

  // ---- the agreement ----

  ghost function Total(fds: seq<Fd>): nat {
    if fds == [] then 0 else fds[0].Bits() + Total(fds[1..])
  }

  // How often a registration waits in some context.
  ghost function Waiting(fds: seq<Fd>, id: nat): nat {
    if fds == [] then 0 else fds[0].Holds(id) + Waiting(fds[1..], id)
  }

  ghost predicate Interest(s: State, fd: nat) {
    if fd < |s.fds| && s.fds[fd].events != {} then fd in s.kernel && s.kernel[fd] == s.fds[fd].events
    else fd !in s.kernel
  }

  // A registration is waiting, scheduled or deleted: exactly one of these, once.
  ghost predicate Once(s: State, id: nat) {
    Waiting(s.fds, id) + multiset(s.scheduled)[id] + multiset(s.deleted)[id] == if id < s.next then 1 else 0
  }

  // All but the kernel's part.
  ghost predicate Core(s: State) {
    && 2 <= |s.fds|
    && (forall i :: 0 <= i < |s.fds| ==> s.fds[i].Inv())
    && s.pending == Total(s.fds)
    && (forall id: nat :: Once(s, id))
  }

  ghost predicate Agrees(s: State) {
    forall fd: nat :: Interest(s, fd)
  }

  ghost predicate Inv(s: State) { Core(s) && Agrees(s) }

  // ---- one context changes ----

  lemma {:induction false} SlotChange(fds: seq<Fd>, i: nat, g: Fd, id: nat)
    requires i < |fds|
    ensures Total(fds[i := g]) + fds[i].Bits() == Total(fds) + g.Bits()
    ensures Waiting(fds[i := g], id) + fds[i].Holds(id) == Waiting(fds, id) + g.Holds(id)
  {
    if i == 0 {
      assert fds[0 := g][1..] == fds[1..];
    } else {
      SlotChange(fds[1..], i - 1, g, id);
      assert fds[i := g][1..] == fds[1..][i - 1 := g];
    }
  }

  // The kernel entry follows the bits of the one fd that changed.
  lemma InterestFollows(s: State, t: State, fd: nat)
    requires Agrees(s) && fd < |s.fds| == |t.fds|
    requires forall i :: 0 <= i < |s.fds| && i != fd ==> t.fds[i] == s.fds[i]
    requires t.kernel == if t.fds[fd].events == {} then s.kernel - {fd} else s.kernel[fd := t.fds[fd].events]
    ensures Agrees(t)
  {
    forall x: nat ensures Interest(t, x) {
      assert Interest(s, x);
    }
  }

  lemma OpIsLegal(s: State, fd: nat)
    requires Agrees(s) && fd < |s.fds|
    ensures fd in s.kernel <==> s.fds[fd].events != {}
  {
    assert Interest(s, fd);
  }

  // Growing the table registers nothing.
  lemma GrownKeeps(s: State, fd: nat)
    requires Inv(s)
    ensures Inv(Grown(s, fd)) && fd < |Grown(s, fd).fds| && |s.fds| <= |Grown(s, fd).fds|
    ensures Grown(s, fd) == s.(fds := Grown(s, fd).fds)
    ensures forall i :: 0 <= i < |s.fds| ==> Grown(s, fd).fds[i] == s.fds[i]
    ensures fd >= |s.fds| ==> Grown(s, fd).fds[fd] == NO_FD
    ensures if fd < |s.fds| then Grown(s, fd) == s else 2 * |Grown(s, fd).fds| <= 3 * fd < 2 * |Grown(s, fd).fds| + 2
  {
    if |s.fds| <= fd {
      var t := Grown(s, fd);
      hide Total, Waiting;
      BlankAdds(s.fds, fd * 3 / 2 - |s.fds|, 0);
      forall x: nat ensures Interest(t, x) {
        assert Interest(s, x);
      }
      forall id: nat ensures Once(t, id) {
        BlankAdds(s.fds, fd * 3 / 2 - |s.fds|, id);
        assert Once(s, id);
      }
    }
  }

  lemma {:induction false} BlankAdds(fds: seq<Fd>, n: nat, id: nat)
    ensures Total(fds + Blank(n)) == Total(fds)
    ensures Waiting(fds + Blank(n), id) == Waiting(fds, id)
    decreases |fds|, n
  {
    if fds != [] {
      BlankAdds(fds[1..], n, id);
      assert (fds + Blank(n))[1..] == fds[1..] + Blank(n);
    } else if n > 0 {
      BlankAdds([], n - 1, id);
      assert fds + Blank(n) == Blank(n) && [] + Blank(n - 1) == Blank(n - 1);
      assert Blank(n)[1..] == Blank(n - 1);
    } else {
      assert fds + Blank(n) == fds;
    }
  }

  // ---- what each operation does, exactly ----

  ghost predicate Elsewhere(s: State, t: State, fd: nat) {
    |s.fds| <= |t.fds| && forall i :: 0 <= i < |s.fds| && i != fd ==> t.fds[i] == s.fds[i]
  }

  // One waiter leaves its context and goes to the log it is given.
  lemma Releases(s: State, t: State, fd: nat, e: Event, id: nat)
    requires Core(s) && fd < |s.fds| && e in s.fds[fd].events
    requires HeldOnce(s.fds[fd].Get(e), id)
    requires t.fds == s.fds[fd := s.fds[fd].(events := s.fds[fd].events - {e}).Put(e, NO_CTX)]
    requires t.pending == s.pending - 1 && t.next == s.next
    requires (t.scheduled == s.scheduled + [id] && t.deleted == s.deleted)
      || (t.scheduled == s.scheduled && t.deleted == s.deleted + [id])
    ensures Core(t)
  {
    hide Total, Waiting;
    var g := t.fds[fd];
    assert s.fds[fd].Inv() && g.Inv();
    SlotChange(s.fds, fd, g, id);
    forall x: nat ensures Once(t, x) {
      assert Once(s, x);
      SlotChange(s.fds, fd, g, x);
      LogsOne(s.scheduled, id, x);
      LogsOne(s.deleted, id, x);
    }
  }

  ghost predicate HeldOnce(c: Ctx, id: nat) {
    forall x: nat :: c.Holds(x) == if x == id then 1 else 0
  }

  lemma LogsOne(log: seq<nat>, id: nat, x: nat)
    ensures multiset(log + [id])[x] == multiset(log)[x] + if x == id then 1 else 0
  {
  }

  lemma WaiterIds(c: Ctx)
    requires c.Waiting()
    ensures |Waiter(c)| == 1 && HeldOnce(c, Waiter(c)[0])
  {
  }

  // triggerEvent on a registered event: its waiter is scheduled and its context is empty.
  lemma FinishExact(s: State, fd: nat, e: Event)
    requires Core(s) && fd < |s.fds|
    ensures Finish(s, fd, e).Crash? <==> e !in s.fds[fd].events
    ensures e in s.fds[fd].events ==>
      var t := Finish(s, fd, e).s;
      && Core(t) && Finish(s, fd, e).ret
      && t == s.(fds := s.fds[fd := s.fds[fd].(events := s.fds[fd].events - {e}).Put(e, NO_CTX)], pending := s.pending - 1,
                 scheduled := s.scheduled + Waiter(s.fds[fd].Get(e)))
  {
    hide Total, Waiting, Once;
    if e in s.fds[fd].events {
      assert s.fds[fd].Inv();
      WaiterIds(s.fds[fd].Get(e));
      Releases(s, Finish(s, fd, e).s, fd, e, Waiter(s.fds[fd].Get(e))[0]);
    }
  }

  lemma RegisterKeeps(s: State, t: State, fd: nat, e: Event, c: Ctx)
    requires Core(s) && fd < |s.fds| && e !in s.fds[fd].events && c.Waiting() && HeldOnce(c, s.next)
    requires t.fds == s.fds[fd := s.fds[fd].(events := s.fds[fd].events + {e}).Put(e, c)]
    requires t.pending == s.pending + 1 && t.next == s.next + 1
    requires t.scheduled == s.scheduled && t.deleted == s.deleted
    ensures Core(t)
  {
    hide Total, Waiting;
    var g := t.fds[fd];
    assert s.fds[fd].Inv() && g.Inv();
    SlotChange(s.fds, fd, g, 0);
    forall x: nat ensures Once(t, x) {
      assert Once(s, x);
      SlotChange(s.fds, fd, g, x);
    }
  }

  lemma AddInTableExact(s: State, fd: nat, e: Event, callback: bool, refused: bool)
    requires Inv(s) && fd < |s.fds|
    ensures var r := AddInTable(s, fd, e, callback, refused);
      && (r.Crash? <==> e in s.fds[fd].events && !refused)
      && (r.Done? ==>
           && Inv(r.s) && r.ret == !refused
           && r.s.scheduled == s.scheduled && r.s.deleted == s.deleted
           && r.s.next == s.next + (if r.ret then 1 else 0)
           && |r.s.fds| == |s.fds| && Elsewhere(s, r.s, fd)
           && (r.ret ==>
                && r.s.fds[fd].events == s.fds[fd].events + {e} && HeldOnce(r.s.fds[fd].Get(e), s.next)
                && (callback <==> r.s.fds[fd].Get(e).cb.Some?)
                && forall o :: o != e ==> r.s.fds[fd].Get(o) == s.fds[fd].Get(o)))
  {
    hide Total, Waiting, Once;
    OpIsLegal(s, fd);
    assert s.fds[fd].Inv();
    if !refused && e !in s.fds[fd].events {
      var c := if callback then Ctx(true, None, Some(s.next)) else Ctx(true, Some(s.next), None);
      var t := AddInTable(s, fd, e, callback, refused).s;
      RegisterKeeps(s, t, fd, e, c);
      InterestFollows(s, t, fd);
    }
  }

  // addEvent fails only when the kernel refuses, and crashes exactly when the event is
  // already registered and the kernel does not.
  lemma AddExact(s: State, fd: nat, e: Event, callback: bool, refused: bool)
    requires Inv(s)
    ensures var r := AddEvent(s, fd, e, callback, refused);
      && (r.Crash? <==> fd < |s.fds| && e in s.fds[fd].events && !refused)
      && (r.Done? ==>
           && Inv(r.s) && r.ret == !refused
           && r.s.scheduled == s.scheduled && r.s.deleted == s.deleted
           && r.s.next == s.next + (if r.ret then 1 else 0)
           && fd < |r.s.fds| && Elsewhere(s, r.s, fd)
           && (r.ret ==> HeldOnce(r.s.fds[fd].Get(e), s.next) && (callback <==> r.s.fds[fd].Get(e).cb.Some?)
                         && r.s.fds[fd].events == (if fd < |s.fds| then s.fds[fd].events else {}) + {e}))
  {
    hide Inv, Grown, AddInTable, HeldOnce;
    GrownKeeps(s, fd);
    AddInTableExact(Grown(s, fd), fd, e, callback, refused);
  }

  // delEvent succeeds exactly when the event is registered and the kernel does not refuse;
  // its waiter is dropped, not scheduled.
  lemma DelExact(s: State, fd: nat, e: Event, refused: bool)
    requires Inv(s)
    ensures DelEvent(s, fd, e, refused).Done?
    ensures var r := DelEvent(s, fd, e, refused);
      && Inv(r.s) && r.s.scheduled == s.scheduled
      && (r.ret <==> fd < |s.fds| && e in s.fds[fd].events && !refused)
      && (r.ret ==> |r.s.fds| == |s.fds| && Elsewhere(s, r.s, fd) && r.s.fds[fd].events == s.fds[fd].events - {e}
                    && r.s.deleted == s.deleted + Waiter(s.fds[fd].Get(e)))
      && (!r.ret ==> r.s == s)
  {
    hide Total, Waiting, Once;
    if fd < |s.fds| && e in s.fds[fd].events {
      OpIsLegal(s, fd);
      if !refused {
        var t := DelEvent(s, fd, e, refused).s;
        assert s.fds[fd].Inv();
        WaiterIds(s.fds[fd].Get(e));
        Releases(s, t, fd, e, Waiter(s.fds[fd].Get(e))[0]);
        InterestFollows(s, t, fd);
      }
    }
  }

  // cancelEvent is delEvent with the waiter scheduled.
  lemma CancelExact(s: State, fd: nat, e: Event, refused: bool)
    requires Inv(s)
    ensures CancelEvent(s, fd, e, refused).Done?
    ensures var r := CancelEvent(s, fd, e, refused);
      && Inv(r.s) && r.s.deleted == s.deleted
      && (r.ret <==> fd < |s.fds| && e in s.fds[fd].events && !refused)
      && (r.ret ==> |r.s.fds| == |s.fds| && Elsewhere(s, r.s, fd) && r.s.fds[fd].events == s.fds[fd].events - {e}
                    && r.s.scheduled == s.scheduled + Waiter(s.fds[fd].Get(e)))
      && (!r.ret ==> r.s == s)
  {
    hide Total, Waiting, Once, Finish;
    if fd < |s.fds| && e in s.fds[fd].events {
      OpIsLegal(s, fd);
      if !refused {
        var left := s.fds[fd].events - {e};
        var u := s.(kernel := if left == {} then s.kernel - {fd} else s.kernel[fd := left]);
        CoreFrame(s, u);
        FinishExact(u, fd, e);
        InterestFollows(s, CancelEvent(s, fd, e, refused).s, fd);
      }
    }
  }

  lemma CoreFrame(s: State, u: State)
    requires Core(s) && u == s.(kernel := u.kernel)
    ensures Core(u)
  {
    forall id: nat ensures Once(u, id) {
      assert Once(s, id);
    }
  }

  // The waiters of the given events, the reader first.
  function WaitersOf(f: Fd, which: set<Event>): seq<nat> {
    (if Read in which then Waiter(f.read) else []) + (if Write in which then Waiter(f.write) else [])
  }

  lemma OnlyTwo(a: set<Event>, b: set<Event>)
    ensures a <= b <==> (Read in a ==> Read in b) && (Write in a ==> Write in b)
    ensures b - a == b - (if Read in a then {Read} else {}) - (if Write in a then {Write} else {})
  {
    forall e: Event ensures e in a <==> e in (if Read in a then {Read} else {}) + (if Write in a then {Write} else {}) {
      match e case Read => case Write =>
    }
  }

  lemma FinishBothExact(s: State, fd: nat, which: set<Event>)
    requires Core(s) && fd < |s.fds|
    ensures FinishBoth(s, fd, which).Crash? <==> !(which <= s.fds[fd].events)
    ensures which <= s.fds[fd].events ==>
      var t := FinishBoth(s, fd, which).s;
      && FinishBoth(s, fd, which).ret
      && Core(t) && |t.fds| == |s.fds| && t.kernel == s.kernel && t.deleted == s.deleted && t.next == s.next
      && Elsewhere(s, t, fd)
      && t.fds[fd].events == s.fds[fd].events - which
      && t.scheduled == s.scheduled + WaitersOf(s.fds[fd], which)
  {
    hide Core, Finish;
    OnlyTwo(which, s.fds[fd].events);
    FinishKeepsTable(s, fd, Read);
    FinishExact(s, fd, Read);
    FinishExact(s, fd, Write);
    if Read in which && Read in s.fds[fd].events {
      FinishExact(Finish(s, fd, Read).s, fd, Write);
    }
  }

  // cancelAll schedules every waiter of the fd and leaves no event.
  lemma CancelAllExact(s: State, fd: nat, refused: bool)
    requires Inv(s)
    ensures CancelAll(s, fd, refused).Done?
    ensures var r := CancelAll(s, fd, refused);
      && Inv(r.s) && r.s.deleted == s.deleted
      && (r.ret <==> fd < |s.fds| && s.fds[fd].events != {} && !refused)
      && (r.ret ==> |r.s.fds| == |s.fds| && Elsewhere(s, r.s, fd) && r.s.fds[fd].events == {}
                    && r.s.scheduled == s.scheduled + WaitersOf(s.fds[fd], s.fds[fd].events))
      && (!r.ret ==> r.s == s)
  {
    hide Core, FinishBoth;
    if fd < |s.fds| && s.fds[fd].events != {} {
      OpIsLegal(s, fd);
      if !refused {
        var u := s.(kernel := s.kernel - {fd});
        CoreFrame(s, u);
        FinishBothExact(u, fd, s.fds[fd].events);
        InterestFollows(s, CancelAll(s, fd, refused).s, fd);
      }
    }
  }

  // What a round of the dispatch loop is told about, once errors are folded in.
  function Actual(s: State, fd: nat, ready: set<Event>, trouble: bool): set<Event>
    requires fd < |s.fds|
  {
    if trouble then ready + s.fds[fd].events else ready
  }

  // A dispatch crashes exactly when, of the events it reports, one is still registered and
  // another is not (and the kernel accepts the change); otherwise the registered waiters
  // among the reported events are scheduled, in order, and no others.
  lemma DispatchExact(s: State, fd: nat, ready: set<Event>, trouble: bool, refused: bool)
    requires Inv(s) && fd < |s.fds|
    ensures var actual, events := Actual(s, fd, ready, trouble), s.fds[fd].events;
      var r := Dispatch(s, fd, ready, trouble, refused);
      && (r.Crash? <==> actual * events != {} && !(actual <= events) && !refused)
      && (r.Done? ==>
           && Inv(r.s) && |r.s.fds| == |s.fds| && r.s.deleted == s.deleted
           && if refused || actual * events == {} then r.s == s
              else Elsewhere(s, r.s, fd) && r.s.fds[fd].events == events - actual
                   && r.s.scheduled == s.scheduled + WaitersOf(s.fds[fd], actual))
  {
    hide Core, FinishBoth;
    var actual, events := Actual(s, fd, ready, trouble), s.fds[fd].events;
    if events * actual != {} {
      OpIsLegal(s, fd);
      if !refused {
        var left := events - actual;
        var u := s.(kernel := if left == {} then s.kernel - {fd} else s.kernel[fd := left]);
        CoreFrame(s, u);
        FinishBothExact(u, fd, actual);
        if actual <= events {
          InterestFollows(s, Dispatch(s, fd, ready, trouble, refused).s, fd);
        }
      }
    }
  }
}
