// The coroutine connection pool of SociManager: what each critical section does to one
// PoolState, and the class whose methods do it in place.
module ConnectionPool {
  import opened Options

  // db: the connection handed over. linked: still in the waiters list. done: the wait is over.
  // parked: get() has not resumed yet. timed: a timeout was armed. owed: the party that ended
  // the wait has yet to call schedule(). scheduled: calls of schedule() made for this waiter.
  datatype Waiter = Waiter(
    db: Option<nat>, linked: bool, done: bool, timedOut: bool,
    parked: bool, timed: bool, owed: bool, scheduled: nat)

  // Waiters are numbered by arrival; the list holds numbers, records the waiters themselves.
  datatype Pool = Pool(idle: seq<nat>, waiters: seq<nat>, totalCount: int, maxConn: nat, records: seq<Waiter>)

  datatype GetOutcome =
    | Reuse(db: nat)      // an idle connection
    | Create              // a slot is reserved, the connection is made outside the lock
    | Refuse              // nothing free, and the caller will not or cannot wait
    | Wait(waiter: nat)   // parked in the list

  const NEW_WAITER := Waiter(None, true, false, false, true, false, false, 0)

  // getPool: max_conn, else the older connection setting, else 30; never below 1.
  function PoolLimit(maxConn: Option<nat>, connection: Option<nat>): (r: nat)
    ensures 1 <= r
  {
    var n := if maxConn.Some? then maxConn.value else if connection.Some? then connection.value else 30;
    if n == 0 then 1 else n
  }

  // The first critical section of get().
  function Get(p: Pool, timeoutMs: int, inFiber: bool): (Pool, GetOutcome) {
    if p.idle != [] then (p.(idle := p.idle[1..]), Reuse(p.idle[0]))
    else if p.totalCount < p.maxConn then (p.(totalCount := p.totalCount + 1), Create)
    else if timeoutMs == 0 || !inFiber then (p, Refuse)
    else
      var n := |p.records|;
      (p.(waiters := p.waiters + [n], records := p.records + [NEW_WAITER.(timed := timeoutMs > 0)]), Wait(n))
  }

  function Without(s: seq<nat>, w: nat): seq<nat> {
    if s == [] then [] else if s[0] == w then s[1..] else [s[0]] + Without(s[1..], w)
  }

  // The timeout callback.
  function TimeOut(p: Pool, w: nat): Pool
    requires w < |p.records|
  {
    var r := p.records[w];
    if r.done then p
    else
      p.(waiters := if r.linked then Without(p.waiters, w) else p.waiters,
         records := p.records[w := r.(linked := false, done := true, timedOut := true, owed := true)])
  }

  predicate Known(p: Pool) { forall i :: 0 <= i < |p.waiters| ==> p.waiters[i] < |p.records| }

  // freeSoci: the connection goes to the first waiter that is not done, else to idle.
  function Free(p: Pool, db: nat): Pool
    requires Known(p)
    decreases |p.waiters|
  {
    if p.waiters == [] then p.(idle := p.idle + [db])
    else
      var w := p.waiters[0];
      var r := p.records[w].(linked := false);
      var p1 := p.(waiters := p.waiters[1..]);
      if r.done then Free(p1.(records := p.records[w := r]), db)
      else p1.(records := p.records[w := r.(done := true, db := Some(db), owed := true)])
  }

  // The second critical section of get(), after the fiber has been resumed.
  function Resume(p: Pool, w: nat): Pool
    requires w < |p.records|
  {
    var r := p.records[w].(parked := false);
    if r.db.Some? then p.(records := p.records[w := r])
    else
      p.(waiters := if r.linked then Without(p.waiters, w) else p.waiters,
         records := p.records[w := r.(linked := false, done := true)])
  }

  // ---- what the critical sections mean ----

  // The limit: max_conn decides, else the older setting, else 30; never below one.
  lemma LimitExact(maxConn: Option<nat>, connection: Option<nat>)
    ensures maxConn.Some? && maxConn.value > 0 ==> PoolLimit(maxConn, connection) == maxConn.value
    ensures maxConn.None? && connection.Some? && connection.value > 0 ==> PoolLimit(maxConn, connection) == connection.value
    ensures maxConn == Some(0) || (maxConn.None? && connection == Some(0)) ==> PoolLimit(maxConn, connection) == 1
    ensures PoolLimit(None, None) == 30
  {
  }

  // An idle connection is reused, oldest first; else a slot is reserved, if one is free; else
  // the caller is refused when it will not wait or is no fiber; else it is parked at the end of
  // the list, with a timer exactly when its timeout is positive.
  lemma GetExact(p: Pool, timeoutMs: int, inFiber: bool)
    ensures var (q, r) := Get(p, timeoutMs, inFiber);
      && (r.Reuse? <==> p.idle != [])
      && (r.Reuse? ==> p.idle == [r.db] + q.idle && q == p.(idle := q.idle))
      && (r.Create? <==> p.idle == [] && p.totalCount < p.maxConn)
      && (r.Create? ==> q.totalCount == p.totalCount + 1 && q == p.(totalCount := q.totalCount))
      && (r.Refuse? <==> p.idle == [] && p.totalCount >= p.maxConn && (timeoutMs == 0 || !inFiber))
      && (r.Refuse? ==> q == p)
      && (r.Wait? ==>
            && r.waiter == |p.records| && q.waiters == p.waiters + [r.waiter]
            && |q.records| == |p.records| + 1 && q.records[..|p.records|] == p.records
            && q == p.(waiters := q.waiters, records := q.records)
            && var w := q.records[r.waiter];
               (w.linked && w.parked && !w.done && !w.timedOut && !w.owed && w.db.None? && w.scheduled == 0
                && (w.timed <==> timeoutMs > 0)))
  {
  }

  // Taking a listed waiter out closes the gap it leaves.
  lemma {:induction false} WithoutAt(s: seq<nat>, i: nat)
    requires i < |s| && forall j :: 0 <= j < i ==> s[j] != s[i]
    ensures Without(s, s[i]) == s[..i] + s[i + 1..]
  {
    if i > 0 {
      WithoutAt(s[1..], i - 1);
      assert s[1..][i - 1] == s[i] && s[1..][..i - 1] == s[1..i] && s[1..][i..] == s[i + 1..];
    }
  }

  lemma {:induction false} WithoutNone(s: seq<nat>, w: nat)
    requires forall j :: 0 <= j < |s| ==> s[j] != w
    ensures Without(s, w) == s
  {
    if s != [] {
      WithoutNone(s[1..], w);
    }
  }

  // The list q is s with one occurrence of w taken out, or s itself if there is none.
  ghost predicate TakenOut(s: seq<nat>, w: nat, q: seq<nat>) {
    || (q == s && forall j :: 0 <= j < |s| ==> s[j] != w)
    || exists i :: 0 <= i < |s| && s[i] == w && q == s[..i] + s[i + 1..] && forall j :: 0 <= j < i ==> s[j] != w
  }

  lemma {:induction false} WithoutTakes(s: seq<nat>, w: nat)
    ensures TakenOut(s, w, Without(s, w))
  {
    if forall j :: 0 <= j < |s| ==> s[j] != w {
      WithoutNone(s, w);
    } else {
      var i := FirstAt(s, w);
      WithoutAt(s, i);
    }
  }

  lemma {:induction false} FirstAt(s: seq<nat>, w: nat) returns (i: nat)
    requires exists j :: 0 <= j < |s| && s[j] == w
    ensures i < |s| && s[i] == w && forall j :: 0 <= j < i ==> s[j] != w
  {
    if s[0] == w {
      i := 0;
    } else {
      var j :| 0 <= j < |s| && s[j] == w;
      assert s[1..][j - 1] == w;
      i := FirstAt(s[1..], w);
      i := i + 1;
      assert forall j :: 0 < j < i ==> s[j] == s[1..][j - 1];
    }
  }

  // A timeout ends a wait that is not over: the waiter is out of the list, done and timed out,
  // and owed its wake-up; everybody else keeps place and state, and no connection moves. It
  // changes nothing for a waiter that is done.
  lemma TimeOutExact(p: Pool, w: nat)
    requires w < |p.records|
    ensures var (q, r) := (TimeOut(p, w), p.records[w]);
      if r.done then q == p
      else
        && q.records[w] == Waiter(r.db, false, true, true, r.parked, r.timed, true, r.scheduled)
        && |q.records| == |p.records| && (forall v :: 0 <= v < |p.records| && v != w ==> q.records[v] == p.records[v])
        && (if r.linked then TakenOut(p.waiters, w, q.waiters) else q.waiters == p.waiters)
        && q.idle == p.idle && q.totalCount == p.totalCount && q.maxConn == p.maxConn
  {
    WithoutTakes(p.waiters, w);
  }

  // The second critical section: the wait is over and the fiber goes on, with the connection it
  // was handed or out of the list without one.
  lemma ResumeExact(p: Pool, w: nat)
    requires w < |p.records|
    ensures var (q, r) := (Resume(p, w), p.records[w]);
      && |q.records| == |p.records| && (forall v :: 0 <= v < |p.records| && v != w ==> q.records[v] == p.records[v])
      && q.idle == p.idle && q.totalCount == p.totalCount && q.maxConn == p.maxConn
      && q.records[w] ==
           (if r.db.Some? then r.(parked := false)
            else Waiter(None, false, true, r.timedOut, false, r.timed, r.owed, r.scheduled))
      && (if r.db.None? && r.linked then TakenOut(p.waiters, w, q.waiters) else q.waiters == p.waiters)
  {
    WithoutTakes(p.waiters, w);
  }

  // A returned connection passes over the waiters at the head of the list that are done, and
  // goes to the first one that is not; without one it is put at the end of the idle ones. The
  // list keeps those behind.
  lemma {:induction false} FreeExact(p: Pool, db: nat) returns (k: nat)
    requires Known(p)
    ensures k <= |p.waiters| && forall j :: 0 <= j < k ==> p.records[p.waiters[j]].done
    ensures var q := Free(p, db);
      && q.totalCount == p.totalCount && q.maxConn == p.maxConn && |q.records| == |p.records|
      && (k == |p.waiters| ==> q.idle == p.idle + [db] && q.waiters == [])
      && (k < |p.waiters| ==>
            var w := p.waiters[k];
            && !p.records[w].done && q.idle == p.idle && q.waiters == p.waiters[k + 1..]
            && q.records[w] == p.records[w].(linked := false, done := true, db := Some(db), owed := true))
      && (forall j :: 0 <= j < k ==> !q.records[p.waiters[j]].linked)
      && (forall v :: 0 <= v < |p.records| && !(k < |p.waiters| && v == p.waiters[k]) ==>
            q.records[v] == p.records[v].(linked := q.records[v].linked) && (q.records[v].linked ==> p.records[v].linked))
    decreases |p.waiters|
  {
    hide Free;
    FreeStep(p, db);
    k := 0;
    if p.waiters != [] && p.records[p.waiters[0]].done {
      var w := p.waiters[0];
      k := FreeExact(p.(waiters := p.waiters[1..], records := p.records[w := p.records[w].(linked := false)]), db);
      k := k + 1;
    }
  }

  lemma FreeStep(p: Pool, db: nat)
    requires Known(p)
    ensures p.waiters == [] ==> Free(p, db) == p.(idle := p.idle + [db])
    ensures p.waiters != [] ==>
      var w := p.waiters[0];
      var r := p.records[w].(linked := false);
      Free(p, db) ==
        if r.done then Free(p.(waiters := p.waiters[1..], records := p.records[w := r]), db)
        else p.(waiters := p.waiters[1..], records := p.records[w := r.(done := true, db := Some(db), owed := true)])
  {
  }

  class PoolState {
    var idle: seq<nat>
    var waiters: seq<nat>
    var totalCount: int
    const maxConn: nat
    var records: seq<Waiter>

    function View(): Pool
      reads this
    {
      Pool(idle, waiters, totalCount, maxConn, records)
    }

    constructor (limit: nat)
      ensures View() == Pool([], [], 0, limit, [])
    {
      idle, waiters, totalCount, maxConn, records := [], [], 0, limit, [];
    }

    method TakeOrWait(timeoutMs: int, inFiber: bool) returns (outcome: GetOutcome)
      modifies this
      ensures (View(), outcome) == Get(old(View()), timeoutMs, inFiber)
    {
      if idle != [] {
        outcome := Reuse(idle[0]);
        idle := idle[1..];
      } else if totalCount < maxConn {
        totalCount := totalCount + 1;
        outcome := Create;
      } else if timeoutMs == 0 {
        outcome := Refuse;
      } else if inFiber {
        var waiter := NEW_WAITER.(timed := timeoutMs > 0);
        outcome := Wait(|records|);
        waiters := waiters + [|records|];
        records := records + [waiter];
      } else {
        outcome := Refuse;
      }
    }

    // list::erase of a known element.
    method Erase(w: nat)
      modifies this`waiters
      ensures waiters == Without(old(waiters), w)
    {
      hide Without;
      var i := 0;
      while i < |waiters| && waiters[i] != w
        invariant 0 <= i <= |waiters| && waiters == old(waiters)
        invariant forall j :: 0 <= j < i ==> waiters[j] != w
      {
        i := i + 1;
      }
      if i < |waiters| {
        WithoutAt(waiters, i);
        waiters := waiters[..i] + waiters[i + 1..];
      } else {
        WithoutNone(waiters, w);
      }
    }

    method OnTimeout(w: nat)
      requires w < |records|
      modifies this
      ensures View() == TimeOut(old(View()), w)
    {
      if records[w].done {
        return;
      }
      if records[w].linked {
        Erase(w);
        records := records[w := records[w].(linked := false)];
      }
      records := records[w := records[w].(done := true, timedOut := true, owed := true)];
    }

    method FreeSoci(db: nat)
      requires Known(View())
      modifies this
      ensures View() == Free(old(View()), db)
    {
      var given := false;
      while waiters != []
        invariant !given && Known(View())
        invariant Free(View(), db) == Free(old(View()), db)
        decreases |waiters|
      {
        var w := waiters[0];
        ghost var before := View();
        waiters := waiters[1..];
        records := records[w := records[w].(linked := false)];
        if records[w].done {
          assert Free(before, db) == Free(View(), db);
          continue;
        }
        records := records[w := records[w].(done := true, db := Some(db), owed := true)];
        given := true;
        break;
      }
      if !given {
        idle := idle + [db];
      }
    }

    method AfterResume(w: nat) returns (db: Option<nat>)
      requires w < |records|
      modifies this
      ensures View() == Resume(old(View()), w) && db == old(records[w].db)
    {
      db := records[w].db;
      if db.None? {
        if records[w].linked {
          Erase(w);
          records := records[w := records[w].(linked := false)];
        }
        records := records[w := records[w].(done := true)];
      }
      records := records[w := records[w].(parked := false)];
    }
  }
}
