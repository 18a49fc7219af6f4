// The scheduler's queue operations as the code performs them: lists walked by a cursor and
// cut in place, counters bumped along the way. Each method is proved to have exactly the
// effect of the corresponding function of SchedulerQueues, which the step machine uses.
module SchedulerCore {
  import opened Options
  import opened SchedulerQueues

  class Processor {
    var runQueue: seq<Task>
    var scheduleCount: nat
    var globalPullCount: nat
    var globalBatchCount: nat
    var stealCount: nat
    var stealBatchCount: nat
    var stealAttemptCount: nat
    var stealFailCount: nat

    constructor ()
      ensures runQueue == [] && scheduleCount == 0 && globalPullCount == 0 && globalBatchCount == 0
      ensures stealCount == 0 && stealBatchCount == 0 && stealAttemptCount == 0 && stealFailCount == 0
    {
      runQueue := [];
      scheduleCount, globalPullCount, globalBatchCount := 0, 0, 0;
      stealCount, stealBatchCount, stealAttemptCount, stealFailCount := 0, 0, 0, 0;
    }

    // popLocalTask: entries of fibers that are still EXEC are thrown away.
    method PopLocalTask(fibers: FiberTable) returns (got: Option<Task>)
      modifies this`runQueue
      ensures got == PopLocal(old(runQueue), fibers).got
      ensures runQueue == PopLocal(old(runQueue), fibers).rest
    {
      while runQueue != []
        invariant PopLocal(runQueue, fibers).got == PopLocal(old(runQueue), fibers).got
        invariant PopLocal(runQueue, fibers).rest == PopLocal(old(runQueue), fibers).rest
        decreases |runQueue|
      {
        var ft := runQueue[0];
        var rest := runQueue[1..];
        if Busy(ft, fibers) {
          assert PopLocal(runQueue, fibers).got == PopLocal(rest, fibers).got;
          runQueue := rest;
        } else {
          runQueue := rest;
          return Some(ft);
        }
      }
      return None;
    }

    // The critical section of stealTask on one victim: the cursor walks from the back.
    method GiveUp(fibers: FiberTable) returns (stolen: seq<Task>)
      modifies this`runQueue
      ensures stolen == Steal(old(runQueue), fibers).stolen
      ensures runQueue == Steal(old(runQueue), fibers).left
    {
      hide TakeYoungest, Busy;
      ghost var q := runQueue;
      var target := |runQueue| / 2;
      if target == 0 { target := 1; }
      stolen := [];
      var it := |runQueue|;
      ghost var kept: seq<Task> := [];
      assert q[..it] == q;
      while it != 0 && |stolen| < target
        invariant 0 <= it <= |q| && |stolen| <= target
        invariant runQueue == q[..it] + kept
        invariant TakeYoungest(q, target, fibers).stolen
               == stolen + TakeYoungest(q[..it], target - |stolen|, fibers).stolen
        invariant TakeYoungest(q, target, fibers).left
               == TakeYoungest(q[..it], target - |stolen|, fibers).left + kept
        decreases it
      {
        it := it - 1;
        assert q[..it + 1] == q[..it] + [q[it]];
        YoungestStep(q[..it], q[it], target - |stolen|, fibers);
        Reassociate(q[..it], q[it], kept);
        var task := runQueue[it];
        if task.Pinned() || Busy(task, fibers) {
          Reassociate(TakeYoungest(q[..it], target - |stolen|, fibers).left, task, kept);
          kept := [task] + kept;
          continue;
        }
        Reassociate(stolen, task, TakeYoungest(q[..it], target - |stolen| - 1, fibers).stolen);
        CutAt(q[..it], task, kept);
        stolen := stolen + [task];
        runQueue := runQueue[..it] + runQueue[it + 1..];
      }
      YoungestStops(q[..it], target - |stolen|, fibers);
    }
  }

  lemma NobodyForeign(me: int)
    ensures !AnyForeign([], me)
  {
  }

  lemma ForeignStep(q: seq<Task>, it: nat, me: int)
    requires it < |q|
    ensures AnyForeign(q[..it + 1], me) <==> AnyForeign(q[..it], me) || Foreign(q[it], me)
  {
    assert q[..it + 1] == q[..it] + [q[it]];
  }

  lemma Reassociate(a: seq<Task>, x: Task, b: seq<Task>)
    ensures a + ([x] + b) == (a + [x]) + b
  {
  }

  lemma Append(a: seq<Task>, b: seq<Task>, x: Task)
    ensures a + (b + [x]) == (a + b) + [x]
  {
  }

  lemma CutAt(a: seq<Task>, x: Task, b: seq<Task>)
    ensures var q := a + ([x] + b); q[..|a|] + q[|a| + 1..] == a + b
  {
  }

  // The queue is split among distinct processors.
  predicate Distinct(ps: seq<Processor>) {
    forall i, j :: 0 <= i < j < |ps| ==> ps[i] != ps[j]
  }

  function Rotated(start: nat, offset: nat, n: nat): (v: nat)
    requires 0 < n
    ensures v < n
    ensures start < n && offset < n ==> v == if start + offset < n then start + offset else start + offset - n
  {
    var sum := start + offset;
    AtMostOneTurn(sum, n);
    sum % n
  }

  lemma AtMostOneTurn(sum: nat, n: nat)
    requires 0 < n
    ensures sum % n < n
    ensures sum < n ==> sum % n == sum
    ensures n <= sum < n + n ==> sum % n == sum - n
  {
  }

  predicate Fruitless(ps: seq<Processor>, me: nat, v: nat, fibers: FiberTable)
    requires v < |ps|
    reads ps
  {
    v == me || Steal(ps[v].runQueue, fibers).stolen == []
  }

  // The first processor in the rotation from start that has anything to take.
  ghost predicate FirstFruitful(ps: seq<Processor>, me: nat, start: nat, victim: nat, fibers: FiberTable)
    requires ps != []
    reads ps
  {
    exists k: nat ::
      && Rotated(start, k, |ps|) == victim && !Fruitless(ps, me, victim, fibers)
      && forall j :: 0 <= j < k ==> Fruitless(ps, me, Rotated(start, j, |ps|), fibers)
  }

  class Scheduler {
    var fibers: seq<Task>          // m_fibers, the global queue
    var states: FiberTable         // m_state of every fiber
    const processors: seq<Processor>
    var globalScheduleCount: nat
    var nextStealProcessor: nat
    var idleThreads: nat

    ghost predicate Valid()
      reads this
    {
      Distinct(processors) && processors != []
    }

    constructor (ps: seq<Processor>)
      requires Distinct(ps) && ps != []
      ensures Valid() && processors == ps && fibers == [] && globalScheduleCount == 0
    {
      processors := ps;
      fibers, states := [], map[];
      globalScheduleCount, nextStealProcessor, idleThreads := 0, 0, 0;
    }

    // scheduleNoLock: current is the calling worker's processor, if it has one; ft is None when
    // the caller passes neither a fiber nor a callback.
    method ScheduleNoLock(ft: Option<Task>, current: Option<nat>) returns (tickle: bool)
      requires Valid() && (current.Some? ==> current.value < |processors|)
      modifies this, processors
      ensures states == old(states) && nextStealProcessor == old(nextStealProcessor) && idleThreads == old(idleThreads)
      ensures var toLocal := ft.Some? && !ft.value.Pinned() && current.Some?;
        var toGlobal := ft.Some? && !toLocal;
        && fibers == old(fibers) + (if toGlobal then [ft.value] else [])
        && globalScheduleCount == old(globalScheduleCount) + (if toGlobal then 1 else 0)
        && tickle == (ft.Some? && (idleThreads > 0 || (toGlobal && old(fibers) == [])))
        && (forall i :: 0 <= i < |processors| ==>
              var here := toLocal && i == current.value;
              && processors[i].runQueue == old(processors[i].runQueue) + (if here then [ft.value] else [])
              && processors[i].scheduleCount == old(processors[i].scheduleCount) + (if here then 1 else 0))
    {
      if ft.None? {
        return false;
      }
      var task := ft.value;
      if task.thread == -1 && current.Some? {
        var processor := processors[current.value];
        processor.runQueue := processor.runQueue + [task];
        processor.scheduleCount := processor.scheduleCount + 1;
        return idleThreads > 0;
      }
      tickle := fibers == [];
      fibers := fibers + [task];
      globalScheduleCount := globalScheduleCount + 1;
      tickle := tickle || idleThreads > 0;
    }

    // The critical section of popGlobalTask: the first eligible entry is cut out, then a
    // batch of movable ones behind it.
    method CutBatch(me: int, hasProcessor: bool) returns (ft: Option<Task>, batch: seq<Task>, tickle: bool)
      requires Valid()
      modifies this`fibers
      ensures var r := PopGlobal(old(fibers), me, hasProcessor, states);
        ft == r.got && batch == r.batch && fibers == r.rest && tickle == r.tickle
    {
      hide TakeBatch, AnyForeign, FirstEligible, Busy;
      ghost var q := fibers;
      NobodyForeign(me);
      assert q[..0] == [];
      batch, tickle := [], false;
      var target := |fibers| / 2;
      if target == 0 { target := 1; }
      var it := 0;
      while it != |fibers|
        invariant 0 <= it <= |q| && fibers == q && batch == []
        invariant forall j :: 0 <= j < it ==> !Eligible(q[j], me, states)
        invariant tickle == AnyForeign(q[..it], me)
        decreases |fibers| - it
      {
        ForeignStep(q, it, me);
        if fibers[it].Pinned() && fibers[it].thread != me {
          it := it + 1;
          tickle := true;
          continue;
        }
        if Busy(fibers[it], states) {
          it := it + 1;
          continue;
        }
        ft := Some(fibers[it]);
        ghost var at := it;
        fibers := fibers[..it] + fibers[it + 1..];
        FirstIs(q, me, states, at);
        if !ft.value.Pinned() && hasProcessor {
          var more: bool;
          batch, it, more := MoveBatch(it, target);
          tickle := tickle || more;
        } else {
          BatchStops(q[at + 1..], 0, states);
          tickle := tickle || it != |fibers|;
        }
        return;
      }
      assert q[..it] == q;
      FirstIs(q, me, states, |q|);
      ft := None;
    }

    // The inner loop of popGlobalTask, starting behind the entry that was cut out.
    method MoveBatch(from: nat, target: nat) returns (batch: seq<Task>, it: nat, tickle: bool)
      requires from <= |fibers| && 0 < target
      modifies this`fibers
      ensures from <= it <= |fibers|
      ensures var b := TakeBatch(old(fibers)[from..], target - 1, states);
        batch == b.taken && fibers == old(fibers)[..from] + b.left && tickle == b.more
    {
      hide TakeBatch;
      ghost var head := fibers[..from];
      ghost var tail := fibers[from..];
      ghost var kept, rest := [], tail;
      ghost var all := TakeBatch(tail, target - 1, states);
      ghost var b := all;
      batch, it, tickle := [], from, false;
      while it != |fibers| && |batch| + 1 < target
        invariant from <= it <= |fibers| && |batch| + 1 <= target
        invariant fibers == head + kept + rest && it == |head| + |kept|
        invariant b == TakeBatch(rest, target - 1 - |batch|, states)
        invariant all.taken == batch + b.taken
        invariant all.left == kept + b.left
        invariant all.more == (tickle || b.more)
        decreases |fibers| - it
      {
        var task := fibers[it];
        ghost var next := rest[1..];
        assert rest == [task] + next;
        BatchStep(task, next, target - 1 - |batch|, states);
        if task.Pinned() || Busy(task, states) {
          // Pinned entries stay behind for their own thread, busy ones for a later round.
          b := TakeBatch(next, target - 1 - |batch|, states);
          Reassociate(kept, task, b.left);
          Reassociate(head + kept, task, next);
          Append(head, kept, task);
          kept, rest := kept + [task], next;
          it := it + 1;
          tickle := tickle || task.Pinned();
          continue;
        }
        b := TakeBatch(next, target - 2 - |batch|, states);
        Reassociate(batch, task, b.taken);
        batch := batch + [task];
        CutAt(head + kept, task, next);
        fibers := fibers[..it] + fibers[it + 1..];
        rest := next;
      }
      BatchStops(rest, target - 1 - |batch|, states);
      tickle := tickle || it != |fibers|;
    }

    // popGlobalTask on processor me: the batch is spliced onto its own queue.
    method PopGlobalTask(tid: int, me: nat) returns (ft: Option<Task>, tickle: bool)
      requires Valid() && me < |processors|
      modifies this`fibers, processors[me]
      ensures var r := PopGlobal(old(fibers), tid, true, states);
        && ft == r.got && fibers == r.rest && tickle == r.tickle
        && processors[me].runQueue == old(processors[me].runQueue) + r.batch
        && processors[me].globalPullCount
           == old(processors[me].globalPullCount) + (if r.got.Some? then |r.batch| + 1 else 0)
        && processors[me].globalBatchCount == old(processors[me].globalBatchCount) + (if r.got.Some? then 1 else 0)
    {
      var batch;
      ft, batch, tickle := CutBatch(tid, true);
      if ft.Some? {
        var processor := processors[me];
        processor.globalPullCount := processor.globalPullCount + |batch| + 1;
        processor.globalBatchCount := processor.globalBatchCount + 1;
        if batch != [] {
          processor.runQueue := processor.runQueue + batch;
        }
      }
    }

    // stealTask on processor me: victims are tried in rotation; the first one with anything
    // movable gives up its loot, the youngest entry is returned and the rest is appended.
    method StealTask(me: nat) returns (ft: Option<Task>, victim: nat)
      requires Valid() && me < |processors|
      modifies this`nextStealProcessor, processors
      ensures processors[me].stealAttemptCount == old(processors[me].stealAttemptCount) + 1
      ensures ft.None? <==> forall v :: 0 <= v < |processors| ==> old(Fruitless(processors, me, v, states))
      ensures ft.None? ==>
        && processors[me].stealFailCount == old(processors[me].stealFailCount) + 1
        && forall v :: 0 <= v < |processors| ==> processors[v].runQueue == old(processors[v].runQueue)
      ensures nextStealProcessor == old(nextStealProcessor) + if |processors| <= 1 then 0 else 1
      ensures ft.Some? ==> old(FirstFruitful(processors, me, nextStealProcessor % |processors|, victim, states))
      ensures ft.Some? ==>
        && victim < |processors| && victim != me
        && var r := Steal(old(processors[victim].runQueue), states);
        && r.stolen != [] && ft.value == r.stolen[0]
        && processors[victim].runQueue == r.left
        && processors[me].runQueue == old(processors[me].runQueue) + r.stolen[1..]
        && processors[me].stealCount == old(processors[me].stealCount) + |r.stolen|
        && processors[me].stealBatchCount == old(processors[me].stealBatchCount) + 1
        && forall v :: 0 <= v < |processors| && v != me && v != victim ==>
             processors[v].runQueue == old(processors[v].runQueue)
    {
      hide Steal;
      var n := |processors|;
      var current := processors[me];
      current.stealAttemptCount := current.stealAttemptCount + 1;
      victim := me;
      if n <= 1 {
        current.stealFailCount := current.stealFailCount + 1;
        return None, me;
      }
      var start := nextStealProcessor % n;
      nextStealProcessor := nextStealProcessor + 1;
      var offset := 0;
      while offset < n
        modifies processors
        invariant 0 <= offset <= n
        invariant forall v :: 0 <= v < n ==> processors[v].runQueue == old(processors[v].runQueue)
        invariant forall k :: 0 <= k < offset ==> old(Fruitless(processors, me, Rotated(start, k, n), states))
        invariant current.stealAttemptCount == old(current.stealAttemptCount) + 1
        invariant current.stealFailCount == old(current.stealFailCount)
        invariant current.stealCount == old(current.stealCount)
        invariant current.stealBatchCount == old(current.stealBatchCount)
      {
        var v := Rotated(start, offset, n);
        if v != me {
          var stolen := processors[v].GiveUp(states);
          if stolen != [] {
            ft, victim := Some(stolen[0]), v;
            assert !old(Fruitless(processors, me, v, states));
            assert old(FirstFruitful(processors, me, nextStealProcessor % |processors|, victim, states));
            current.stealCount := current.stealCount + |stolen|;
            current.stealBatchCount := current.stealBatchCount + 1;
            if |stolen| > 1 {
              current.runQueue := current.runQueue + stolen[1..];
            }
            return;
          }
          NothingStolen(old(processors[v].runQueue), states);
        }
        offset := offset + 1;
      }
      forall v | 0 <= v < n ensures old(Fruitless(processors, me, v, states)) {
        var k := RotationReaches(start, v, n);
      }
      current.stealFailCount := current.stealFailCount + 1;
      ft := None;
    }

    // processorQueuesEmpty
    method ProcessorQueuesEmpty() returns (empty: bool)
      ensures empty <==> forall i :: 0 <= i < |processors| ==> processors[i].runQueue == []
    {
      for i := 0 to |processors|
        invariant forall j :: 0 <= j < i ==> processors[j].runQueue == []
      {
        if processors[i].runQueue != [] { return false; }
      }
      return true;
    }
  }

  lemma {:induction false} FirstIs(q: seq<Task>, me: int, fibers: FiberTable, at: nat)
    requires at <= |q| && (forall j :: 0 <= j < at ==> !Eligible(q[j], me, fibers))
    requires at < |q| ==> Eligible(q[at], me, fibers)
    ensures FirstEligible(q, me, fibers) == at
  {
    if at > 0 { FirstIs(q[1..], me, fibers, at - 1); }
  }

  // An empty loot means an untouched victim.
  lemma {:induction false} NothingStolen(q: seq<Task>, fibers: FiberTable)
    requires Steal(q, fibers).stolen == []
    ensures Steal(q, fibers).left == q
  {
    NothingTaken(q, AtLeastOne(|q| / 2), fibers);
  }

  lemma {:induction false} NothingTaken(q: seq<Task>, room: nat, fibers: FiberTable)
    requires TakeYoungest(q, room, fibers).stolen == []
    ensures TakeYoungest(q, room, fibers).left == q
  {
    hide TakeYoungest;
    if q == [] || room == 0 {
      YoungestStops(q, room, fibers);
    } else {
      var older, last := q[..|q| - 1], q[|q| - 1];
      assert q == older + [last];
      YoungestStep(older, last, room, fibers);
      NothingTaken(older, room, fibers);
    }
  }

  // The rotation visits every processor.
  lemma RotationReaches(start: nat, v: nat, n: nat) returns (k: nat)
    requires start < n && v < n
    ensures k < n && Rotated(start, k, n) == v
  {
    k := if v >= start then v - start else n - start + v;
  }
}
