// TimerManager as the program runs it: one object whose fields the operations update, each
// proved to do what TimerSet says.
module TimerManagers {
  import opened Options
  import opened TimerSet

  // timers maps a timer's address to its fields, order is the set in iteration order.
  class TimerManager {
    var timers: map<nat, Timer>
    var order: seq<nat>
    var tickled: bool
    var previousTime: nat

    function Abs(): State
      reads this
    {
      State(timers, order, tickled, previousTime)
    }

    constructor (now: nat)
      ensures Abs() == State(map[], [], false, now) && Abs().Inv()
    {
      timers, order, tickled, previousTime := map[], [], false, now;
    }

    method PutTimer(a: nat) returns (notified: bool)
      requires a in timers && Known(timers, order)
      modifies this
      ensures Abs() == PutFront(old(Abs()), a).state && notified == PutFront(old(Abs()), a).notified
    {
      order := Insert(timers, order, a);
      notified := order != [] && order[0] == a && !tickled;
      if notified {
        tickled := true;
      }
    }

    method AddTimer(a: nat, now: nat, ms: nat, cb: Option<nat>, recurring: bool) returns (notified: bool)
      requires a !in timers && Known(timers, order)
      modifies this
      ensures var r := Add(old(Abs()), a, now, ms, cb, recurring);
        Abs() == r.state && notified == r.notified
    {
      timers := timers[a := Timer(ms, Deadline(now, ms), cb, recurring)];
      notified := PutTimer(a);
    }

    method CancelTimer(a: nat) returns (ok: bool)
      requires a in timers
      modifies this
      ensures var r := Cancel(old(Abs()), a); Abs() == r.state && ok == r.ok
    {
      if timers[a].cb.Some? {
        timers := timers[a := timers[a].(cb := None)];
        if a !in order {
          return false;
        }
        order := Erase(order, a);
        return true;
      }
      return false;
    }

    method RefreshTimer(a: nat, now: nat) returns (ok: bool)
      requires a in timers && Known(timers, order)
      modifies this
      ensures var r := Refresh(old(Abs()), a, now); Abs() == r.state && ok == r.ok
    {
      if timers[a].cb.None? || a !in order {
        return false;
      }
      var next := Deadline(now, timers[a].ms);
      KnownAfterErase(timers, order, a, timers[a].(next := next));
      order := Erase(order, a);
      timers := timers[a := timers[a].(next := next)];
      order := Insert(timers, order, a);
      ok := true;
    }

    method ResetTimer(a: nat, now: nat, ms: nat, fromNow: bool) returns (ok: bool, notified: bool)
      requires a in timers && Known(timers, order)
      modifies this
      ensures var r := Reset(old(Abs()), a, now, ms, fromNow);
        Abs() == r.state && ok == r.ok && notified == r.notified
    {
      if ms == timers[a].ms && !fromNow {
        return true, false;
      }
      if timers[a].cb.None? || a !in order {
        return false, false;
      }
      var start := if fromNow then now else (timers[a].next - timers[a].ms) % WORD;
      KnownAfterErase(timers, order, a, timers[a].(ms := ms, next := Deadline(start, ms)));
      order := Erase(order, a);
      timers := timers[a := timers[a].(ms := ms, next := Deadline(start, ms))];
      notified := PutTimer(a);
      ok := true;
    }

    method GetNextTimer(now: nat) returns (wait: nat)
      requires Known(timers, order)
      modifies this`tickled
      ensures Abs() == NextTimer(old(Abs()), now).0 && wait == NextTimer(old(Abs()), now).1
    {
      tickled := false;
      if order == [] {
        return WORD - 1;
      }
      assert order[0] in timers;
      var next := timers[order[0]].next;
      wait := if now >= next then 0 else next - now;
    }

    // lower_bound with the sentinel, then the loop over equal deadlines.
    method EndOfDue(now: nat, sentinel: nat) returns (it: nat)
      requires Known(timers, order)
      ensures it == SkipEqual(timers, order, LowerBound(timers, order, Key(now, sentinel)), now)
    {
      hide LowerBound, SkipEqual;
      it := LowerBound(timers, order, Key(now, sentinel));
      ghost var first := it;
      while it < |order| && timers[order[it]].next == now
        invariant first <= it <= |order|
        invariant SkipEqual(timers, order, it, now) == SkipEqual(timers, order, first, now)
        decreases |order| - it
      {
        SkipOnce(timers, order, it, now);
        it := it + 1;
      }
      SkipStops(timers, order, it, now);
    }

    // The loop over the timers taken out of the set.
    method FireAll(expired: seq<nat>, now: nat) returns (cbs: seq<Option<nat>>)
      requires Known(timers, order) && Known(timers, expired) && Distinct(expired)
      modifies this`timers, this`order
      ensures (timers, order) == Rearm(old(timers), old(order), expired, now)
      ensures cbs == Callbacks(old(timers), expired)
    {
      hide Rearm, Callbacks, Insert, Deadline;
      ghost var start, rest := timers, order;
      cbs := [];
      NoCallbacks(timers);
      assert expired[..0] == [] && expired[0..] == expired;
      var i := 0;
      while i < |expired|
        invariant 0 <= i <= |expired|
        invariant Known(timers, order) && Known(timers, expired[i..])
        invariant Rearm(timers, order, expired[i..], now) == Rearm(start, rest, expired, now)
        invariant cbs == Callbacks(start, expired[..i])
        invariant forall k :: i <= k < |expired| ==> expired[k] in timers && timers[expired[k]] == start[expired[k]]
      {
        var a := expired[i];
        assert expired[i..][0] == a && expired[i..][1..] == expired[i + 1..];
        assert expired[..i + 1] == expired[..i] + [a];
        RearmOnce(timers, order, expired[i..], now);
        CallbacksSnoc(start, expired[..i], a);
        cbs := cbs + [timers[a].cb];
        if timers[a].recurring {
          timers := timers[a := timers[a].(next := Deadline(now, timers[a].ms))];
          order := Insert(timers, order, a);
        } else {
          timers := timers[a := timers[a].(cb := None)];
        }
        i := i + 1;
      }
      assert expired[..i] == expired && expired[i..] == [];
      RearmDone(timers, order, now);
    }

    // sentinel is the address the allocator gives the timer that lower_bound searches with.
    method ListExpiredCb(now: nat, sentinel: nat) returns (cbs: seq<Option<nat>>)
      requires Abs().Ordered()
      modifies this
      ensures var (state, fired) := ListExpired(old(Abs()), now, sentinel);
        Abs() == state && Known(old(timers), fired) && cbs == Callbacks(old(timers), fired)
    {
      hide Sorted, Rearm, LowerBound, SkipEqual, Callbacks, RolledOver;
      cbs := [];
      NoCallbacks(timers);
      if order == [] {
        return;
      }
      assert order[0] in timers;
      var rollover := RolledOver(previousTime, now);
      previousTime := now;
      if !rollover && timers[order[0]].next > now {
        return;
      }
      var it := |order|;
      if !rollover {
        it := EndOfDue(now, sentinel);
      }
      SortedDistinct(timers, order, it);
      var expired := order[..it];
      order := order[it..];
      cbs := FireAll(expired, now);
    }
  }

  lemma NoCallbacks(ts: map<nat, Timer>)
    ensures Callbacks(ts, []) == []
  {
  }

  lemma {:induction false} CallbacksSnoc(ts: map<nat, Timer>, fired: seq<nat>, a: nat)
    requires Known(ts, fired) && a in ts
    ensures Known(ts, fired + [a])
    ensures Callbacks(ts, fired + [a]) == Callbacks(ts, fired) + [ts[a].cb]
  {
    var l, r := Callbacks(ts, fired + [a]), Callbacks(ts, fired) + [ts[a].cb];
    assert |l| == |r| && forall i :: 0 <= i < |l| ==> l[i] == r[i];
  }

  lemma SkipOnce(ts: map<nat, Timer>, order: seq<nat>, n: nat, now: nat)
    requires Known(ts, order) && n < |order| && ts[order[n]].next == now
    ensures SkipEqual(ts, order, n, now) == SkipEqual(ts, order, n + 1, now)
  {
  }

  lemma SkipStops(ts: map<nat, Timer>, order: seq<nat>, n: nat, now: nat)
    requires Known(ts, order) && n <= |order| && (n < |order| ==> ts[order[n]].next != now)
    ensures SkipEqual(ts, order, n, now) == n
  {
  }

  lemma RearmOnce(ts: map<nat, Timer>, order: seq<nat>, expired: seq<nat>, now: nat)
    requires Known(ts, order) && Known(ts, expired) && expired != [] && Distinct(expired)
    ensures var a := expired[0]; var us := ts[a := Rearmed(ts[a], now)];
      && a !in expired[1..] && Known(us, order) && Known(us, expired[1..])
      && Rearm(ts, order, expired, now)
         == Rearm(us, if ts[a].recurring then Insert(us, order, a) else order, expired[1..], now)
  {
    assert expired == [expired[0]] + expired[1..];
  }

  lemma RearmDone(ts: map<nat, Timer>, order: seq<nat>, now: nat)
    requires Known(ts, order)
    ensures Rearm(ts, order, [], now) == (ts, order)
  {
  }
}
