// Run-queue entries and the three ways run() draws them, as functions on sequences.
//
// A queue is listed oldest entry first. Each function takes a snapshot of the fiber
// states, because every draw path asks whether the fiber of an entry is still EXEC.
module SchedulerQueues {
  import opened Options

  datatype FiberState = Init | Hold | Exec | Term | Ready | Except

  datatype Work = FiberWork(fiber: nat) | CallbackWork(cb: nat)

  // History of an entry: which worker enqueued it, or whether an outside thread did so
  // before stop() had raised both stop flags. The code does not store this.
  datatype Origin = ByWorker(worker: nat) | External(beforeStop: bool)

  // FiberAndThread; thread == -1 means "any thread".
  datatype Task = Task(work: Work, thread: int, origin: Origin) {
    predicate Pinned() { thread != -1 }
  }

  type FiberTable = map<nat, FiberState>

  // The entry's fiber is still switching out on some worker.
  predicate Busy(t: Task, fibers: FiberTable) {
    t.work.FiberWork? && t.work.fiber in fibers && fibers[t.work.fiber] == Exec
  }

  function AtLeastOne(n: nat): nat { if n == 0 then 1 else n }

  // ---- popLocalTask ----

  datatype LocalPop = LocalPop(dropped: seq<Task>, got: Option<Task>, rest: seq<Task>)

  function PopLocal(q: seq<Task>, fibers: FiberTable): LocalPop {
    if q == [] then LocalPop([], None, [])
    else if Busy(q[0], fibers) then
      var r := PopLocal(q[1..], fibers);
      r.(dropped := [q[0]] + r.dropped)
    else LocalPop([], Some(q[0]), q[1..])
  }

  function ToSeq<T>(o: Option<T>): seq<T> { if o.Some? then [o.value] else [] }

  // The queue is cut into a busy prefix, the entry returned, and an untouched tail; an
  // unsuccessful call leaves the queue empty.
  lemma {:induction false} PopLocalExact(q: seq<Task>, fibers: FiberTable)
    ensures var r := PopLocal(q, fibers);
      && q == r.dropped + ToSeq(r.got) + r.rest
      && (forall t :: t in r.dropped ==> Busy(t, fibers) && t.work.FiberWork? && fibers[t.work.fiber] == Exec)
      && (r.got.Some? ==>
            && !Busy(r.got.value, fibers)
            && (r.got.value.work.FiberWork? && r.got.value.work.fiber in fibers ==> fibers[r.got.value.work.fiber] != Exec))
      && (r.got.None? ==> r.rest == [])
  {
    if q == [] {
    } else if Busy(q[0], fibers) {
      PopLocalExact(q[1..], fibers);
      assert q == [q[0]] + q[1..];
    } else {
      assert q == [q[0]] + q[1..];
    }
  }

  // ---- popGlobalTask ----

  predicate Foreign(t: Task, me: int) { t.Pinned() && t.thread != me }

  predicate AnyForeign(q: seq<Task>, me: int) { exists t :: t in q && Foreign(t, me) }

  predicate Eligible(t: Task, me: int, fibers: FiberTable) {
    !Foreign(t, me) && !Busy(t, fibers)
  }

  predicate Movable(t: Task, fibers: FiberTable) { !t.Pinned() && !Busy(t, fibers) }

  function FirstEligible(q: seq<Task>, me: int, fibers: FiberTable): (i: nat)
    ensures i <= |q|
    ensures forall j :: 0 <= j < i ==> !Eligible(q[j], me, fibers)
    ensures i < |q| ==> Eligible(q[i], me, fibers)
  {
    if q == [] then 0
    else if Eligible(q[0], me, fibers) then 0
    else 1 + FirstEligible(q[1..], me, fibers)
  }

  // taken: entries moved, oldest first; left: what stays; more: the scan passed a pinned
  // entry or stopped before the end of the queue.
  datatype Batch = Batch(taken: seq<Task>, left: seq<Task>, more: bool)

  function TakeBatch(q: seq<Task>, room: nat, fibers: FiberTable): Batch {
    if q == [] || room == 0 then Batch([], q, q != [])
    else if Movable(q[0], fibers) then
      var r := TakeBatch(q[1..], room - 1, fibers);
      r.(taken := [q[0]] + r.taken)
    else
      var r := TakeBatch(q[1..], room, fibers);
      r.(left := [q[0]] + r.left, more := r.more || q[0].Pinned())
  }

  datatype GlobalPop = GlobalPop(got: Option<Task>, batch: seq<Task>, rest: seq<Task>, tickle: bool)

  // How many entries may be moved on top of the one returned.
  function Room(q: seq<Task>, first: Task, hasProcessor: bool): nat {
    if !first.Pinned() && hasProcessor then AtLeastOne(|q| / 2) - 1 else 0
  }

  function PopGlobalAt(q: seq<Task>, i: nat, me: int, hasProcessor: bool, fibers: FiberTable): GlobalPop
    requires i < |q|
  {
    var b := TakeBatch(q[i + 1..], Room(q, q[i], hasProcessor), fibers);
    GlobalPop(Some(q[i]), b.taken, q[..i] + b.left, AnyForeign(q[..i], me) || b.more)
  }

  function PopGlobal(q: seq<Task>, me: int, hasProcessor: bool, fibers: FiberTable): GlobalPop {
    var i := FirstEligible(q, me, fibers);
    if i == |q| then GlobalPop(None, [], q, AnyForeign(q, me))
    else PopGlobalAt(q, i, me, hasProcessor, fibers)
  }

  // The movable entries of q, or the other ones, in queue order.
  function Keep(q: seq<Task>, fibers: FiberTable, movable: bool): seq<Task> {
    if q == [] then []
    else (if Movable(q[0], fibers) == movable then [q[0]] else []) + Keep(q[1..], fibers, movable)
  }

  lemma BatchStep(first: Task, q: seq<Task>, room: nat, fibers: FiberTable)
    requires 0 < room
    ensures var all := TakeBatch([first] + q, room, fibers);
      if Movable(first, fibers) then
        var r := TakeBatch(q, room - 1, fibers);
        all.taken == [first] + r.taken && all.left == r.left && all.more == r.more
      else
        var r := TakeBatch(q, room, fibers);
        all.taken == r.taken && all.left == [first] + r.left && all.more == (r.more || first.Pinned())
  {
    assert ([first] + q)[1..] == q;
  }

  lemma BatchStops(q: seq<Task>, room: nat, fibers: FiberTable)
    requires q == [] || room == 0
    ensures TakeBatch(q, room, fibers) == Batch([], q, q != [])
  {
  }

  lemma {:induction false} TakeBatchExact(q: seq<Task>, room: nat, fibers: FiberTable) returns (cut: nat)
    ensures cut <= |q|
    ensures var b := TakeBatch(q, room, fibers);
      && |b.taken| <= room
      && b.taken == Keep(q[..cut], fibers, true)
      && b.left == Keep(q[..cut], fibers, false) + q[cut..]
      && (cut == |q| || |b.taken| == room)
      && b.more == (cut < |q| || AnyPinned(q[..cut]))
  {
    hide TakeBatch, Movable, Keep, AnyPinned;
    if q == [] || room == 0 {
      cut := 0;
      BatchStops(q, room, fibers);
      KeepNothing(fibers);
      assert q[..0] == [];
    } else {
      var move := Movable(q[0], fibers);
      assert q == [q[0]] + q[1..];
      BatchStep(q[0], q[1..], room, fibers);
      var c := TakeBatchExact(q[1..], if move then room - 1 else room, fibers);
      cut := c + 1;
      CutTail(q, c);
      KeepFirst(q[..cut], fibers, true);
      KeepFirst(q[..cut], fibers, false);
      PinnedFirst(q[..cut]);
      FreeToMove(q[0], fibers);
      JoinFirst([q[0]], Keep(q[1..][..c], fibers, false), q[cut..]);
    }
  }

  lemma CutTail(q: seq<Task>, c: nat)
    requires c < |q|
    ensures q[..c + 1] != [] && q[..c + 1][0] == q[0] && q[..c + 1][1..] == q[1..][..c]
    ensures q[c + 1..] == q[1..][c..]
  {
  }

  lemma JoinFirst(a: seq<Task>, b: seq<Task>, c: seq<Task>)
    ensures a + (b + c) == (a + b) + c && [] + b == b
  {
  }

  predicate AnyPinned(q: seq<Task>) { exists t :: t in q && t.Pinned() }

  lemma PinnedFirst(q: seq<Task>)
    requires q != []
    ensures AnyPinned(q) <==> q[0].Pinned() || AnyPinned(q[1..])
  {
    assert q == [q[0]] + q[1..];
  }

  lemma FreeToMove(t: Task, fibers: FiberTable)
    ensures Movable(t, fibers) ==> !t.Pinned()
  {
  }

  lemma KeepNothing(fibers: FiberTable)
    ensures Keep([], fibers, true) == [] && Keep([], fibers, false) == [] && !AnyPinned([])
  {
  }

  lemma KeepFirst(q: seq<Task>, fibers: FiberTable, movable: bool)
    requires q != []
    ensures Keep(q, fibers, movable)
         == (if Movable(q[0], fibers) == movable then [q[0]] else []) + Keep(q[1..], fibers, movable)
  {
  }

  // Exact effect of a pull: the first eligible entry is returned; from a stretch right behind
  // it every movable entry is taken, in order; all other entries stay, in order. At most one
  // entry leaves the queue, or half of them; the stretch is cut short only when that many have
  // left, and ends at once behind a pinned entry or without a processor to take the rest. Other
  // workers are woken exactly when the scan passed an entry of theirs, passed a pinned one, or
  // did not see the whole queue.
  lemma PopGlobalExact(q: seq<Task>, me: int, hasProcessor: bool, fibers: FiberTable) returns (at: nat, cut: nat)
    requires PopGlobal(q, me, hasProcessor, fibers).got.Some?
    ensures at < cut <= |q|
    ensures var r := PopGlobal(q, me, hasProcessor, fibers);
      && r.got == Some(q[at]) && Eligible(q[at], me, fibers)
      && (forall j :: 0 <= j < at ==> !Eligible(q[j], me, fibers))
      && r.batch == Keep(q[at + 1..cut], fibers, true)
      && r.rest == q[..at] + Keep(q[at + 1..cut], fibers, false) + q[cut..]
      && (r.batch == [] || 2 * (1 + |r.batch|) <= |q|)
      && (q[at].Pinned() || !hasProcessor ==> r.batch == [])
      && (!q[at].Pinned() && hasProcessor && cut < |q| ==> 2 * (1 + |r.batch|) + 2 > |q|)
      && (r.tickle <==>
            || (exists t :: t in q[..at] && t.thread != -1 && t.thread != me)
            || cut < |q|
            || (exists t :: t in q[at + 1..cut] && t.thread != -1))
      && (forall t :: t in r.batch ==> !t.Pinned() && !Busy(t, fibers))
  {
    hide TakeBatch, Keep, Eligible, Busy;
    at := FirstEligible(q, me, fibers);
    var c := TakeBatchExact(q[at + 1..], Room(q, q[at], hasProcessor), fibers);
    cut := at + 1 + c;
    assert q[at + 1..][..c] == q[at + 1..cut];
    assert q[at + 1..][c..] == q[cut..];
    KeepOnly(q[at + 1..cut], fibers, true);
  }

  // The batch of a pull: unpinned entries whose fiber is not EXEC, all of them in the stretch.
  lemma PopGlobalMembers(q: seq<Task>, me: int, fibers: FiberTable, at: nat, cut: nat, t: Task)
    requires at < cut <= |q|
    ensures t in Keep(q[at + 1..cut], fibers, true) <==>
      && t in q[at + 1..cut] && t.thread == -1
      && (t.work.FiberWork? && t.work.fiber in fibers ==> fibers[t.work.fiber] != Exec)
    ensures Eligible(t, me, fibers) <==>
      && (t.thread == -1 || t.thread == me)
      && (t.work.FiberWork? && t.work.fiber in fibers ==> fibers[t.work.fiber] != Exec)
  {
    KeepOnly(q[at + 1..cut], fibers, true);
  }

  lemma {:induction false} KeepOnly(q: seq<Task>, fibers: FiberTable, movable: bool)
    ensures forall t :: t in Keep(q, fibers, movable) <==> t in q && Movable(t, fibers) == movable
  {
    if q != [] { KeepOnly(q[1..], fibers, movable); assert q == [q[0]] + q[1..]; }
  }

  // An unsuccessful pull changes nothing, and only entries pinned elsewhere or busy remain.
  lemma PopGlobalNone(q: seq<Task>, me: int, hasProcessor: bool, fibers: FiberTable)
    requires PopGlobal(q, me, hasProcessor, fibers).got.None?
    ensures PopGlobal(q, me, hasProcessor, fibers).rest == q
    ensures forall t :: t in q ==> Foreign(t, me) || Busy(t, fibers)
    ensures PopGlobal(q, me, hasProcessor, fibers).tickle <==> exists t :: t in q && t.thread != -1 && t.thread != me
  {
    forall t | t in q ensures !Eligible(t, me, fibers) {
      var j :| 0 <= j < |q| && q[j] == t;
    }
  }

  // ---- stealTask, one victim ----

  datatype Loot = Loot(stolen: seq<Task>, left: seq<Task>)

  // stolen is listed youngest first, the order in which the thief meets the entries.
  function TakeYoungest(q: seq<Task>, room: nat, fibers: FiberTable): Loot {
    if q == [] || room == 0 then Loot([], q)
    else
      var last := q[|q| - 1];
      if Movable(last, fibers) then
        var r := TakeYoungest(q[..|q| - 1], room - 1, fibers);
        r.(stolen := [last] + r.stolen)
      else
        var r := TakeYoungest(q[..|q| - 1], room, fibers);
        r.(left := r.left + [last])
  }

  function Steal(q: seq<Task>, fibers: FiberTable): Loot {
    TakeYoungest(q, AtLeastOne(|q| / 2), fibers)
  }

  function Reversed<T>(s: seq<T>): seq<T> {
    if s == [] then [] else Reversed(s[1..]) + [s[0]]
  }

  lemma {:induction false} ReversedSnoc<T>(s: seq<T>, x: T)
    ensures Reversed(s + [x]) == [x] + Reversed(s)
  {
    if s == [] {
      assert s + [x] == [x];
    } else {
      ReversedSnoc(s[1..], x);
      assert (s + [x])[1..] == s[1..] + [x];
    }
  }

  lemma {:induction false} KeepSnoc(q: seq<Task>, x: Task, fibers: FiberTable, movable: bool)
    ensures Keep(q + [x], fibers, movable)
         == Keep(q, fibers, movable) + (if Movable(x, fibers) == movable then [x] else [])
  {
    if q == [] {
      assert q + [x] == [x];
    } else {
      KeepSnoc(q[1..], x, fibers, movable);
      assert (q + [x])[1..] == q[1..] + [x];
    }
  }

  lemma ReversedNothing()
    ensures Reversed<Task>([]) == []
  {
  }

  lemma YoungestStep(q: seq<Task>, last: Task, room: nat, fibers: FiberTable)
    requires 0 < room
    ensures var all := TakeYoungest(q + [last], room, fibers);
      if Movable(last, fibers) then
        var r := TakeYoungest(q, room - 1, fibers);
        all.stolen == [last] + r.stolen && all.left == r.left
      else
        var r := TakeYoungest(q, room, fibers);
        all.stolen == r.stolen && all.left == r.left + [last]
  {
    assert (q + [last])[..|q|] == q;
  }

  lemma YoungestStops(q: seq<Task>, room: nat, fibers: FiberTable)
    requires q == [] || room == 0
    ensures TakeYoungest(q, room, fibers) == Loot([], q)
  {
  }

  lemma {:induction false} TakeYoungestExact(q: seq<Task>, room: nat, fibers: FiberTable) returns (cut: nat)
    ensures cut <= |q|
    ensures var r := TakeYoungest(q, room, fibers);
      && |r.stolen| <= room
      && r.stolen == Reversed(Keep(q[cut..], fibers, true))
      && r.left == q[..cut] + Keep(q[cut..], fibers, false)
      && (cut == 0 || |r.stolen| == room)
  {
    hide TakeYoungest, Movable, Keep, Reversed;
    if q == [] || room == 0 {
      cut := |q|;
      YoungestStops(q, room, fibers);
      assert q[cut..] == [] && q[..cut] == q;
      KeepNothing(fibers);
      ReversedNothing();
    } else {
      var n := |q| - 1;
      var last := q[n];
      var move := Movable(last, fibers);
      assert q == q[..n] + [last];
      YoungestStep(q[..n], last, room, fibers);
      cut := TakeYoungestExact(q[..n], if move then room - 1 else room, fibers);
      assert q[..n][cut..] + [last] == q[cut..];
      assert q[..n][..cut] == q[..cut];
      KeepSnoc(q[..n][cut..], last, fibers, true);
      KeepSnoc(q[..n][cut..], last, fibers, false);
      ReversedSnoc(Keep(q[..n][cut..], fibers, true), last);
      assert Keep(q[cut..], fibers, !move) == Keep(q[..n][cut..], fibers, !move);
    }
  }

  // Exact effect of a steal: the movable entries of a youngest stretch leave, youngest
  // first; everything else keeps its place. At most one entry leaves, or half of them, and the
  // stretch does not reach the oldest entry only when that many have left.
  lemma StealExact(q: seq<Task>, fibers: FiberTable) returns (cut: nat)
    ensures cut <= |q|
    ensures var r := Steal(q, fibers);
      && r.stolen == Reversed(Keep(q[cut..], fibers, true))
      && r.left == q[..cut] + Keep(q[cut..], fibers, false)
      && (|r.stolen| <= 1 || 2 * |r.stolen| <= |q|)
      && (cut > 0 ==> |r.stolen| > 0 && 2 * |r.stolen| + 2 > |q|)
  {
    cut := TakeYoungestExact(q, AtLeastOne(|q| / 2), fibers);
  }

  // The loot holds movable entries of the victim only, and is empty only when the victim
  // has none.
  lemma StealMembers(q: seq<Task>, fibers: FiberTable)
    ensures forall t :: t in Steal(q, fibers).stolen ==>
      && t in q && Movable(t, fibers) && t.thread == -1
      && (t.work.FiberWork? && t.work.fiber in fibers ==> fibers[t.work.fiber] != Exec)
    ensures Steal(q, fibers).stolen == [] ==> forall t :: t in q ==>
      && !Movable(t, fibers)
      && (t.thread != -1 || (t.work.FiberWork? && t.work.fiber in fibers && fibers[t.work.fiber] == Exec))
  {
    var cut := StealExact(q, fibers);
    KeepOnly(q[cut..], fibers, true);
    ReversedMembers(Keep(q[cut..], fibers, true));
    assert forall t :: t in q[cut..] ==> t in q;
    if Steal(q, fibers).stolen == [] {
      assert q[cut..] == q;
      assert Keep(q[cut..], fibers, true) == [];
    }
  }

  lemma {:induction false} ReversedMembers<T>(s: seq<T>)
    ensures |Reversed(s)| == |s|
    ensures forall x :: x in Reversed(s) <==> x in s
    ensures multiset(Reversed(s)) == multiset(s)
  {
    if s != [] { ReversedMembers(s[1..]); assert s == [s[0]] + s[1..]; }
  }

  // ---- no entry is lost or copied by a draw ----

  lemma PopLocalBag(q: seq<Task>, fibers: FiberTable)
    ensures var r := PopLocal(q, fibers);
      multiset(q) == multiset(r.dropped) + multiset(ToSeq(r.got)) + multiset(r.rest)
  {
    PopLocalExact(q, fibers);
  }

  lemma {:induction false} TakeBatchBag(q: seq<Task>, room: nat, fibers: FiberTable)
    ensures var b := TakeBatch(q, room, fibers);
      multiset(q) == multiset(b.taken) + multiset(b.left)
  {
    if q == [] || room == 0 {
    } else {
      TakeBatchBag(q[1..], if Movable(q[0], fibers) then room - 1 else room, fibers);
      assert q == [q[0]] + q[1..];
    }
  }

  lemma PopGlobalBag(q: seq<Task>, me: int, hasProcessor: bool, fibers: FiberTable)
    ensures var r := PopGlobal(q, me, hasProcessor, fibers);
      multiset(q) == multiset(ToSeq(r.got)) + multiset(r.batch) + multiset(r.rest)
  {
    hide TakeBatch, Eligible, AnyForeign;
    var i := FirstEligible(q, me, fibers);
    if i < |q| {
      var b := TakeBatch(q[i + 1..], Room(q, q[i], hasProcessor), fibers);
      TakeBatchBag(q[i + 1..], Room(q, q[i], hasProcessor), fibers);
      BagSplit(q, i, b.taken, b.left);
    }
  }

  lemma BagSplit(q: seq<Task>, i: nat, taken: seq<Task>, left: seq<Task>)
    requires i < |q| && multiset(q[i + 1..]) == multiset(taken) + multiset(left)
    ensures multiset(q) == multiset([q[i]]) + multiset(taken) + multiset(q[..i] + left)
  {
    assert q == q[..i] + [q[i]] + q[i + 1..];
  }

  lemma {:induction false} TakeYoungestBag(q: seq<Task>, room: nat, fibers: FiberTable)
    ensures var r := TakeYoungest(q, room, fibers);
      multiset(q) == multiset(r.stolen) + multiset(r.left)
  {
    if q == [] || room == 0 {
    } else {
      var n := |q| - 1;
      TakeYoungestBag(q[..n], if Movable(q[n], fibers) then room - 1 else room, fibers);
      assert q == q[..n] + [q[n]];
    }
  }
}
