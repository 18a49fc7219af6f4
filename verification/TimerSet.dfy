// TimerManager's ordered set of timers: what each operation does to it.
module TimerSet {
  import opened Options

  const WORD: int := 0x1_0000_0000_0000_0000
  const HOUR: int := 60 * 60 * 1000

  // A timer; next is its deadline, cb its callback (None once cleared).
  datatype Timer = Timer(ms: nat, next: nat, cb: Option<nat>, recurring: bool)

  // ---- the order of the set ----

  datatype Key = Key(next: nat, addr: nat)

  // The comparator: null pointers first, then by deadline, then by address.
  predicate Less(l: Option<Key>, r: Option<Key>) {
    if l.None? && r.None? then false
    else if l.None? then true
    else if r.None? then false
    else if l.value.next < r.value.next then true
    else if r.value.next < l.value.next then false
    else l.value.addr < r.value.addr
  }

  // A strict total order on timers of distinct addresses, as std::set requires.
  lemma LessIsTotalOrder(a: Option<Key>, b: Option<Key>, c: Option<Key>)
    ensures !Less(a, a)
    ensures Less(a, b) && Less(b, c) ==> Less(a, c)
    ensures Less(a, b) || a == b || Less(b, a)
  {
    if a.Some? && b.Some? && a.value.next == b.value.next && a.value.addr == b.value.addr {
      assert a.value == b.value;
    }
  }

  // Which one comes first: a null pointer before a timer, the earlier deadline before the later
  // one, and of equal deadlines the lower address.
  lemma LessExact(a: Option<Key>, b: Option<Key>)
    ensures Less(a, b) <==>
      b.Some? && (a.Some? ==> a.value.next < b.value.next || (a.value.next == b.value.next && a.value.addr < b.value.addr))
  {
  }

  predicate Earlier(ts: map<nat, Timer>, a: nat, b: nat)
    requires a in ts && b in ts
  {
    Less(Some(Key(ts[a].next, a)), Some(Key(ts[b].next, b)))
  }

  predicate Known(ts: map<nat, Timer>, order: seq<nat>) {
    forall i :: 0 <= i < |order| ==> order[i] in ts
  }

  // The set's contents in iteration order.
  predicate Sorted(ts: map<nat, Timer>, order: seq<nat>)
    requires Known(ts, order)
  {
    forall i, j :: 0 <= i < j < |order| ==> Earlier(ts, order[i], order[j])
  }

  // m_timers.insert.
  function Insert(ts: map<nat, Timer>, order: seq<nat>, a: nat): (r: seq<nat>)
    requires a in ts && Known(ts, order)
    ensures Known(ts, r)
  {
    if order == [] || Earlier(ts, a, order[0]) then [a] + order
    else if order[0] == a then order
    else
      assert Known(ts, order[1..]) && order[0] in ts;
      [order[0]] + Insert(ts, order[1..], a)
  }

  lemma {:induction false} InsertExact(ts: map<nat, Timer>, order: seq<nat>, a: nat)
    requires a in ts && Known(ts, order) && Sorted(ts, order) && a !in order
    ensures Sorted(ts, Insert(ts, order, a))
    ensures forall x :: x in Insert(ts, order, a) <==> x == a || x in order
    ensures Insert(ts, order, a)[0] == a <==> forall i :: 0 <= i < |order| ==> Earlier(ts, a, order[i])
  {
    if order == [] {
    } else if Earlier(ts, a, order[0]) {
      forall i | 0 <= i < |order| ensures Earlier(ts, a, order[i]) {
      }
    } else {
      var rest := Insert(ts, order[1..], a);
      InsertExact(ts, order[1..], a);
      assert Earlier(ts, order[0], a);
      forall j | 0 <= j < |rest| ensures Earlier(ts, order[0], rest[j]) {
        if rest[j] != a {
          assert rest[j] in order[1..];
          var k :| 0 <= k < |order[1..]| && order[1..][k] == rest[j];
          assert Earlier(ts, order[0], order[k + 1]);
        }
      }
      assert Insert(ts, order, a)[0] == order[0];
    }
  }

  // m_timers.erase of one timer.
  function Erase(order: seq<nat>, a: nat): (r: seq<nat>)
    ensures |r| <= |order|
  {
    if order == [] then [] else if order[0] == a then order[1..] else [order[0]] + Erase(order[1..], a)
  }

  lemma {:induction false} EraseExact(ts: map<nat, Timer>, order: seq<nat>, a: nat)
    requires Known(ts, order) && Sorted(ts, order)
    ensures Known(ts, Erase(order, a)) && Sorted(ts, Erase(order, a))
    ensures forall x :: x in Erase(order, a) <==> x in order && x != a
  {
    if order == [] {
    } else if order[0] == a {
      forall x ensures x in order[1..] <==> x in order && x != a {
        if x in order[1..] {
          var k :| 0 <= k < |order[1..]| && order[1..][k] == x;
          assert Earlier(ts, order[0], order[k + 1]);
        }
      }
    } else {
      var rest := Erase(order[1..], a);
      EraseExact(ts, order[1..], a);
      forall j | 0 <= j < |rest| ensures Earlier(ts, order[0], rest[j]) {
        assert rest[j] in order[1..];
        var k :| 0 <= k < |order[1..]| && order[1..][k] == rest[j];
        assert Earlier(ts, order[0], order[k + 1]);
      }
    }
  }

  // Sortedness only looks at the deadlines of the timers in the set.
  lemma SortedFrame(ts: map<nat, Timer>, us: map<nat, Timer>, order: seq<nat>)
    requires Known(ts, order) && Sorted(ts, order)
    requires forall i :: 0 <= i < |order| ==> order[i] in us && us[order[i]].next == ts[order[i]].next
    ensures Known(us, order) && Sorted(us, order)
  {
    forall i, j | 0 <= i < j < |order| ensures Earlier(us, order[i], order[j]) {
      assert Earlier(ts, order[i], order[j]);
    }
  }

  // ---- the operations ----

  datatype State = State(timers: map<nat, Timer>, order: seq<nat>, tickled: bool, previous: nat) {
    // Every timer in the set is known and the set is in order.
    ghost predicate Ordered() { Known(timers, order) && Sorted(timers, order) }

    // Besides, a timer that still has its callback is in the set and no other is, and
    // deadlines did not wrap.
    ghost predicate Inv() {
      && Ordered()
      && (forall a :: a in timers ==> (a in order <==> timers[a].cb.Some?))
      && (forall a :: a in order ==> timers[a].ms <= timers[a].next < WORD)
    }
  }

  // What an operation does: the new state, the boolean result, whether
  // onTimerInsertedAtFront was called.
  datatype Outcome = Outcome(state: State, ok: bool, notified: bool)

  // uint64_t addition.
  function Deadline(start: nat, ms: nat): (d: nat)
    ensures d < WORD
  {
    (start + ms) % WORD
  }

  // addTimer(val, lock): insert, and notify if the timer is now first and nobody was told yet.
  function PutFront(s: State, a: nat): Outcome
    requires a in s.timers && Known(s.timers, s.order)
  {
    var order := Insert(s.timers, s.order, a);
    var atFront := order != [] && order[0] == a && !s.tickled;
    Outcome(s.(order := order, tickled := s.tickled || atFront), true, atFront)
  }

  function Add(s: State, a: nat, now: nat, ms: nat, cb: Option<nat>, recurring: bool): Outcome
    requires a !in s.timers && Known(s.timers, s.order)
  {
    var timers := s.timers[a := Timer(ms, Deadline(now, ms), cb, recurring)];
    assert Known(timers, s.order);
    PutFront(s.(timers := timers), a)
  }

  function Cancel(s: State, a: nat): Outcome
    requires a in s.timers
  {
    if s.timers[a].cb == None then Outcome(s, false, false)
    else
      var timers := s.timers[a := s.timers[a].(cb := None)];
      if a !in s.order then Outcome(s.(timers := timers), false, false)
      else Outcome(s.(timers := timers, order := Erase(s.order, a)), true, false)
  }

  lemma KnownAfterErase(ts: map<nat, Timer>, order: seq<nat>, a: nat, t: Timer)
    requires Known(ts, order)
    ensures Known(ts[a := t], Erase(order, a))
  {
    if order != [] && order[0] != a {
      assert Known(ts, order[1..]);
      KnownAfterErase(ts, order[1..], a, t);
    }
  }

  // refresh re-inserts without going through addTimer: nobody is notified.
  function Refresh(s: State, a: nat, now: nat): Outcome
    requires a in s.timers && Known(s.timers, s.order)
  {
    if s.timers[a].cb == None || a !in s.order then Outcome(s, false, false)
    else
      var timers := s.timers[a := s.timers[a].(next := Deadline(now, s.timers[a].ms))];
      KnownAfterErase(s.timers, s.order, a, timers[a]);
      Outcome(s.(timers := timers, order := Insert(timers, Erase(s.order, a), a)), true, false)
  }

  function Reset(s: State, a: nat, now: nat, ms: nat, fromNow: bool): Outcome
    requires a in s.timers && Known(s.timers, s.order)
  {
    var t := s.timers[a];
    if ms == t.ms && !fromNow then Outcome(s, true, false)
    else if t.cb == None || a !in s.order then Outcome(s, false, false)
    else
      var start := if fromNow then now else (t.next - t.ms) % WORD;
      var timers := s.timers[a := t.(ms := ms, next := Deadline(start, ms))];
      KnownAfterErase(s.timers, s.order, a, timers[a]);
      PutFront(s.(timers := timers, order := Erase(s.order, a)), a)
  }

  // getNextTimer: the wait until the first deadline; all ones when there is no timer.
  function NextTimer(s: State, now: nat): (r: (State, nat))
    requires Known(s.timers, s.order)
  {
    var state := s.(tickled := false);
    if s.order == [] then (state, WORD - 1)
    else
      assert s.order[0] in s.timers;
      var next := s.timers[s.order[0]].next;
      (state, if now >= next then 0 else next - now)
  }

  // detectClockRollover, with its uint64_t subtraction.
  predicate RolledOver(previous: nat, now: nat) {
    now < previous && now < (previous - HOUR) % WORD
  }

  // How many timers come before the sentinel: m_timers.lower_bound.
  function LowerBound(ts: map<nat, Timer>, order: seq<nat>, k: Key): (n: nat)
    requires Known(ts, order)
    ensures n <= |order|
  {
    if order == [] then 0
    else
      assert order[0] in ts && Known(ts, order[1..]);
      if Less(Some(Key(ts[order[0]].next, order[0])), Some(k)) then 1 + LowerBound(ts, order[1..], k) else 0
  }

  // The loop that steps over equal deadlines.
  function SkipEqual(ts: map<nat, Timer>, order: seq<nat>, n: nat, now: nat): (m: nat)
    requires Known(ts, order) && n <= |order|
    ensures n <= m <= |order|
    decreases |order| - n
  {
    if n < |order| && ts[order[n]].next == now then SkipEqual(ts, order, n + 1, now) else n
  }

  // The loop over the expired timers.
  function Rearm(ts: map<nat, Timer>, order: seq<nat>, expired: seq<nat>, now: nat): (r: (map<nat, Timer>, seq<nat>))
    requires Known(ts, order) && Known(ts, expired)
    ensures Known(r.0, r.1) && r.0.Keys == ts.Keys
    decreases |expired|
  {
    if expired == [] then (ts, order)
    else
      var a := expired[0];
      var t := ts[a];
      if t.recurring then
        var us := ts[a := t.(next := Deadline(now, t.ms))];
        assert Known(us, order) && Known(us, expired[1..]);
        Rearm(us, Insert(us, order, a), expired[1..], now)
      else
        var us := ts[a := t.(cb := None)];
        assert Known(us, order) && Known(us, expired[1..]);
        Rearm(us, order, expired[1..], now)
  }

  function Callbacks(ts: map<nat, Timer>, fired: seq<nat>): (cbs: seq<Option<nat>>)
    requires Known(ts, fired)
    ensures |cbs| == |fired|
    ensures forall i :: 0 <= i < |fired| ==> cbs[i] == ts[fired[i]].cb
  {
    if fired == [] then [] else
      assert fired[0] in ts && Known(ts, fired[1..]);
      [ts[fired[0]].cb] + Callbacks(ts, fired[1..])
  }

  // How many timers, from the front, listExpiredCb takes out; sentinel is the address of the
  // temporary timer it searches with.
  function Expired(s: State, now: nat, sentinel: nat): (n: nat)
    requires Known(s.timers, s.order)
    ensures n <= |s.order|
  {
    if RolledOver(s.previous, now) then |s.order|
    else SkipEqual(s.timers, s.order, LowerBound(s.timers, s.order, Key(now, sentinel)), now)
  }

  // listExpiredCb: the new state and the timers whose callbacks are handed out, in order.
  function ListExpired(s: State, now: nat, sentinel: nat): (r: (State, seq<nat>))
    requires Known(s.timers, s.order)
  {
    if s.order == [] then (s, [])
    else
      assert s.order[0] in s.timers;
      if !RolledOver(s.previous, now) && s.timers[s.order[0]].next > now then (s.(previous := now), [])
      else
        var n := Expired(s, now, sentinel);
        assert Known(s.timers, s.order[..n]) && Known(s.timers, s.order[n..]);
        var (timers, order) := Rearm(s.timers, s.order[n..], s.order[..n], now);
        (State(timers, order, s.tickled, now), s.order[..n])
  }

  // ---- expired timers are exact ----

  ghost predicate Due(ts: map<nat, Timer>, a: nat, now: nat) {
    a in ts && ts[a].next <= now
  }

  // The bound search with a sentinel of any address, then the skip, stop exactly behind the
  // timers that are due.
  lemma {:induction false} BoundExact(ts: map<nat, Timer>, order: seq<nat>, now: nat, sentinel: nat)
    requires Known(ts, order) && Sorted(ts, order)
    ensures var n := SkipEqual(ts, order, LowerBound(ts, order, Key(now, sentinel)), now);
      forall i :: 0 <= i < |order| ==> (i < n <==> Due(ts, order[i], now))
  {
    var low := LowerBound(ts, order, Key(now, sentinel));
    LowerBoundExact(ts, order, Key(now, sentinel));
    SkipExact(ts, order, low, now);
  }

  lemma {:induction false} LowerBoundExact(ts: map<nat, Timer>, order: seq<nat>, k: Key)
    requires Known(ts, order) && Sorted(ts, order)
    ensures forall i :: 0 <= i < |order| ==>
      (i < LowerBound(ts, order, k) <==> Less(Some(Key(ts[order[i]].next, order[i])), Some(k)))
  {
    if order != [] {
      LowerBoundExact(ts, order[1..], k);
      forall i | 0 <= i < |order|
        ensures i < LowerBound(ts, order, k) <==> Less(Some(Key(ts[order[i]].next, order[i])), Some(k))
      {
        if i > 0 {
          assert order[1..][i - 1] == order[i];
          assert Earlier(ts, order[0], order[i]);
        }
      }
    }
  }

  lemma {:induction false} SkipExact(ts: map<nat, Timer>, order: seq<nat>, n: nat, now: nat)
    requires Known(ts, order) && Sorted(ts, order) && n <= |order|
    requires forall i :: 0 <= i < n ==> ts[order[i]].next <= now
    requires forall i :: n <= i < |order| ==> ts[order[i]].next >= now
    ensures forall i :: 0 <= i < |order| ==> (i < SkipEqual(ts, order, n, now) <==> Due(ts, order[i], now))
    decreases |order| - n
  {
    if n < |order| && ts[order[n]].next == now {
      SkipExact(ts, order, n + 1, now);
    } else if n < |order| {
      forall i | n < i < |order| ensures ts[order[i]].next > now {
        assert Earlier(ts, order[n], order[i]);
      }
    }
  }

  // What re-arming leaves of a timer that was taken out.
  function Rearmed(t: Timer, now: nat): Timer {
    if t.recurring then t.(next := Deadline(now, t.ms)) else t.(cb := None)
  }

  ghost predicate Distinct(xs: seq<nat>) {
    forall i, j :: 0 <= i < j < |xs| ==> xs[i] != xs[j]
  }

  lemma FirstOnce(xs: seq<nat>)
    requires xs != [] && Distinct(xs)
    ensures xs[0] !in xs[1..] && Distinct(xs[1..])
    ensures forall x :: x in xs <==> x == xs[0] || x in xs[1..]
  {
    assert xs == [xs[0]] + xs[1..];
    forall i, j | 0 <= i < j < |xs[1..]| ensures xs[1..][i] != xs[1..][j] {
      assert xs[1..][i] == xs[i + 1] && xs[1..][j] == xs[j + 1];
    }
  }

  lemma {:induction false} RearmExact(ts: map<nat, Timer>, order: seq<nat>, expired: seq<nat>, now: nat)
    requires Known(ts, order) && Known(ts, expired) && Sorted(ts, order)
    requires Distinct(expired) && forall a :: a in expired ==> a !in order
    ensures var (us, o) := Rearm(ts, order, expired, now);
      && us.Keys == ts.Keys
      && (forall a :: a in ts ==> us[a] == if a in expired then Rearmed(ts[a], now) else ts[a])
      && Sorted(us, o)
      && forall a :: a in o <==> a in order || (a in expired && ts[a].recurring)
    decreases |expired|
  {
    if expired != [] {
      var a, rest := expired[0], expired[1..];
      FirstOnce(expired);
      var us := ts[a := Rearmed(ts[a], now)];
      assert a !in order;
      assert forall i :: 0 <= i < |order| ==> order[i] in order;
      SortedFrame(ts, us, order);
      assert Known(us, rest);
      if ts[a].recurring {
        InsertExact(us, order, a);
        RearmExact(us, Insert(us, order, a), rest, now);
      } else {
        RearmExact(us, order, rest, now);
      }
    }
  }

  lemma SortedDistinct(ts: map<nat, Timer>, order: seq<nat>, n: nat)
    requires Known(ts, order) && Sorted(ts, order) && n <= |order|
    ensures Distinct(order) && Distinct(order[..n])
    ensures Known(ts, order[..n]) && Sorted(ts, order[..n]) && Known(ts, order[n..]) && Sorted(ts, order[n..])
    ensures forall a :: a in order[..n] ==> a !in order[n..]
    ensures forall a :: a in order <==> a in order[..n] || a in order[n..]
  {
    forall i, j | 0 <= i < j < |order| ensures order[i] != order[j] {
      assert Earlier(ts, order[i], order[j]);
    }
    assert order == order[..n] + order[n..];
  }

  // Exactly the timers that are due are handed out, in the set's order; they leave the set,
  // except that the recurring ones are back in it, due ms after now; all others are untouched.
  // The sentinel's address plays no part. After a rollover every timer counts as due.
  lemma ExpiredExact(s: State, now: nat, sentinel: nat)
    requires s.Ordered()
    ensures var (t, fired) := ListExpired(s, now, sentinel);
      && fired <= s.order
      && (forall a :: a in fired <==> a in s.order && (RolledOver(s.previous, now) || s.timers[a].next <= now))
      && t.timers.Keys == s.timers.Keys
      && (forall a :: a in s.timers ==> t.timers[a] == if a in fired then Rearmed(s.timers[a], now) else s.timers[a])
      && Known(t.timers, t.order) && Sorted(t.timers, t.order)
      && (forall a :: a in t.order <==> a in s.order && (a in fired ==> s.timers[a].recurring))
      && t.tickled == s.tickled && t.previous == if s.order == [] then s.previous else now
  {
    hide Sorted, Rearm, LowerBound, SkipEqual, RolledOver, Rearmed;
    if s.order == [] {
    } else if !RolledOver(s.previous, now) && s.timers[s.order[0]].next > now {
      FirstIsLeast(s.timers, s.order);
    } else {
      var n := Expired(s, now, sentinel);
      BoundExact(s.timers, s.order, now, sentinel);
      SortedDistinct(s.timers, s.order, n);
      RearmExact(s.timers, s.order[n..], s.order[..n], now);
      PrefixIsDue(s, now, n);
    }
  }

  lemma FirstIsLeast(ts: map<nat, Timer>, order: seq<nat>)
    requires Known(ts, order) && Sorted(ts, order) && order != []
    ensures forall a :: a in order ==> a in ts && ts[order[0]].next <= ts[a].next
  {
    forall a | a in order ensures a in ts && ts[order[0]].next <= ts[a].next {
      var k :| 0 <= k < |order| && order[k] == a;
      if k > 0 {
        assert Earlier(ts, order[0], order[k]);
      }
    }
  }

  lemma PrefixIsDue(s: State, now: nat, n: nat)
    requires Known(s.timers, s.order) && n <= |s.order| && Distinct(s.order)
    requires if RolledOver(s.previous, now) then n == |s.order|
             else forall i :: 0 <= i < |s.order| ==> (i < n <==> Due(s.timers, s.order[i], now))
    ensures forall a :: a in s.order[..n] <==>
      a in s.order && (RolledOver(s.previous, now) || s.timers[a].next <= now)
  {
    if RolledOver(s.previous, now) {
      assert s.order[..n] == s.order;
    } else {
      forall a ensures a in s.order[..n] <==> a in s.order && s.timers[a].next <= now {
        if a in s.order {
          var k :| 0 <= k < |s.order| && s.order[k] == a;
          assert k < n ==> s.order[..n][k] == a;
        }
      }
    }
  }

  // ---- what every operation keeps ----

  // The sum of a start and an interval reads at least as late as the interval exactly when
  // it does not wrap.
  lemma DeadlineExact(start: nat, ms: nat)
    requires start < 0x1_0000_0000_0000_0000 && ms < 0x1_0000_0000_0000_0000
    ensures Deadline(start, ms) >= ms <==> start + ms < 0x1_0000_0000_0000_0000
    ensures Deadline(start, ms) == start + ms || Deadline(start, ms) == start + ms - 0x1_0000_0000_0000_0000
    ensures start + ms < 0x1_0000_0000_0000_0000 ==> Deadline(start, ms) == start + ms
  {
    if start + ms >= WORD {
      assert Deadline(start, ms) == start + ms - WORD;
    }
  }

  lemma PutFrontKeeps(s: State, a: nat)
    requires a in s.timers && Known(s.timers, s.order) && Sorted(s.timers, s.order) && a !in s.order
    ensures var r := PutFront(s, a);
      && r.state.timers == s.timers && r.state.previous == s.previous && r.ok
      && Known(r.state.timers, r.state.order) && Sorted(r.state.timers, r.state.order)
      && (forall x :: x in r.state.order <==> x == a || x in s.order)
      && (r.notified <==> !s.tickled && r.state.tickled)
      && r.state.tickled == (s.tickled || r.notified)
      && (!r.state.tickled ==> exists x :: x in s.order && Earlier(s.timers, x, a))
  {
    hide Sorted, Insert;
    InsertExact(s.timers, s.order, a);
    if !PutFront(s, a).state.tickled {
      var i :| 0 <= i < |s.order| && !Earlier(s.timers, a, s.order[i]);
      var x := s.order[i];
      LessIsTotalOrder(Some(Key(s.timers[x].next, x)), Some(Key(s.timers[a].next, a)), None);
      assert x in s.order && Earlier(s.timers, x, a);
    }
  }

  // a comes before every timer of the set.
  ghost predicate First(ts: map<nat, Timer>, order: seq<nat>, a: nat) {
    a in ts && forall x :: x in order ==> x in ts && Earlier(ts, a, x)
  }

  // The manager is notified exactly when the timer is the first and nobody was told yet.
  lemma NotifiedExact(s: State, a: nat)
    requires a in s.timers && Known(s.timers, s.order) && Sorted(s.timers, s.order) && a !in s.order
    ensures PutFront(s, a).notified <==> First(s.timers, s.order, a) && !s.tickled
  {
    hide Sorted, Insert;
    InsertExact(s.timers, s.order, a);
    if First(s.timers, s.order, a) {
      assert forall i :: 0 <= i < |s.order| ==> s.order[i] in s.order;
    }
  }

  // A new timer is armed at now plus ms, as a word; the others stay as they are. That keeps
  // the invariant exactly when there is a callback and the sum does not wrap.
  lemma AddKeeps(s: State, a: nat, now: nat, ms: nat, cb: Option<nat>, recurring: bool)
    requires s.Ordered() && a !in s.timers && now < WORD && ms < WORD
    ensures var r := Add(s, a, now, ms, cb, recurring);
      && r.state.Ordered() && (s.Inv() ==> (r.state.Inv() <==> cb.Some? && now + ms < WORD))
      && r.state.timers == s.timers[a := Timer(ms, Deadline(now, ms), cb, recurring)]
      && (forall x :: x in r.state.order <==> x in s.order || x == a)
      && (r.notified <==> First(r.state.timers, s.order, a) && !s.tickled)
      && r.state.tickled == (s.tickled || r.notified) && r.state.previous == s.previous
  {
    hide Sorted, PutFront, First, Deadline;
    DeadlineExact(now, ms);
    var timers := s.timers[a := Timer(ms, Deadline(now, ms), cb, recurring)];
    SortedFrame(s.timers, timers, s.order);
    assert forall i :: 0 <= i < |s.order| ==> s.order[i] in s.order;
    PutFrontKeeps(s.(timers := timers), a);
    NotifiedExact(s.(timers := timers), a);
  }

  // A timer without a callback goes into the set, but cancel, refresh and reset all refuse it
  // and change nothing.
  lemma EmptyCallbackStays(s: State, a: nat, now: nat, ms: nat, recurring: bool, later: nat)
    requires s.Ordered() && a !in s.timers && now < WORD && ms < WORD
    ensures var t := Add(s, a, now, ms, None, recurring).state;
      && a in t.order && Cancel(t, a) == Outcome(t, false, false) && Refresh(t, a, later) == Outcome(t, false, false)
      && Reset(t, a, later, ms, true) == Outcome(t, false, false)
  {
    hide Sorted, PutFront, First, Deadline;
    AddKeeps(s, a, now, ms, None, recurring);
  }

  // A timer that still has its callback loses it and leaves the set, and nothing else changes;
  // cancel succeeds exactly when it was in the set. A timer without one is left alone.
  lemma CancelKeeps(s: State, a: nat)
    requires s.Ordered() && a in s.timers
    ensures var r := Cancel(s, a);
      && r.state.Ordered() && (s.Inv() ==> r.state.Inv() && r.ok == (a in s.order)) && !r.notified
      && r.ok == (s.timers[a].cb.Some? && a in s.order)
      && r.state.timers == s.timers[a := s.timers[a].(cb := None)]
      && (forall x :: x in r.state.order <==> x in s.order && (x == a ==> s.timers[a].cb.None?))
      && r.state.tickled == s.tickled && r.state.previous == s.previous
  {
    hide Sorted, Erase;
    var timers := s.timers[a := s.timers[a].(cb := None)];
    if s.timers[a].cb.None? {
      assert timers == s.timers;
    } else {
      EraseExact(s.timers, s.order, a);
      EraseMembers(s.order, a);
      SortedFrame(s.timers, timers, Erase(s.order, a));
      SortedFrame(s.timers, timers, s.order);
    }
  }

  lemma RefreshKeeps(s: State, a: nat, now: nat)
    requires s.Ordered() && a in s.timers && now < WORD
    ensures var r, ms := Refresh(s, a, now), s.timers[a].ms;
      && r.state.Ordered() && (s.Inv() ==> (r.state.Inv() <==> (r.ok ==> now + ms < WORD)))
      && r.ok == (s.timers[a].cb.Some? && a in s.order) && !r.notified
      && (if r.ok then r.state.timers == s.timers[a := s.timers[a].(next := Deadline(now, ms))] else r.state == s)
      && (forall x :: x in r.state.order <==> x in s.order)
      && r.state.tickled == s.tickled && r.state.previous == s.previous
  {
    hide Sorted, Erase, Insert, Deadline;
    if s.timers[a].cb.Some? && a in s.order {
      if s.Inv() {
        DeadlineExact(now, s.timers[a].ms);
      }
      var timers := s.timers[a := s.timers[a].(next := Deadline(now, s.timers[a].ms))];
      EraseExact(s.timers, s.order, a);
      EraseMembers(s.order, a);
      SortedFrame(s.timers, timers, Erase(s.order, a));
      InsertExact(timers, Erase(s.order, a), a);
    }
  }

  lemma EraseMembers(order: seq<nat>, a: nat)
    ensures forall i :: 0 <= i < |Erase(order, a)| ==> Erase(order, a)[i] in Erase(order, a)
  {
  }

  // reset without from_now goes back to the start of the old interval; under the invariant
  // that start cannot be below zero.
  lemma ResetKeeps(s: State, a: nat, now: nat, ms: nat, fromNow: bool)
    requires s.Ordered() && a in s.timers && now < WORD && ms < WORD
    ensures var r, t := Reset(s, a, now, ms, fromNow), s.timers[a];
      var same := ms == t.ms && !fromNow;
      var live := t.cb.Some? && a in s.order;
      var start := if fromNow then now else (t.next - t.ms) % WORD;
      && r.state.Ordered() && (s.Inv() ==> (r.state.Inv() <==> (live && !same ==> start + ms < WORD)))
      && (s.Inv() && live && !fromNow ==> start == t.next - t.ms)
      && r.ok == (live || same)
      && (if live && !same then r.state.timers == s.timers[a := t.(ms := ms, next := Deadline(start, ms))]
          else r.state == s && !r.notified)
      && (forall x :: x in r.state.order <==> x in s.order)
      && r.state.tickled == (s.tickled || r.notified) && r.state.previous == s.previous
  {
    hide Sorted, Erase, PutFront, Deadline;
    var t := s.timers[a];
    if t.cb.Some? && a in s.order && !(ms == t.ms && !fromNow) {
      var start := if fromNow then now else (t.next - t.ms) % WORD;
      DeadlineExact(start, ms);
      var timers := s.timers[a := t.(ms := ms, next := Deadline(start, ms))];
      EraseExact(s.timers, s.order, a);
      EraseMembers(s.order, a);
      SortedFrame(s.timers, timers, Erase(s.order, a));
      KnownAfterErase(s.timers, s.order, a, timers[a]);
      PutFrontKeeps(s.(timers := timers, order := Erase(s.order, a)), a);
    }
  }

  // Collecting keeps the invariant exactly when no sum of a re-armed timer wraps.
  lemma ListKeeps(s: State, now: nat, sentinel: nat)
    requires s.Inv() && now < WORD
    ensures var (t, fired) := ListExpired(s, now, sentinel);
      t.Inv() <==> forall a :: a in fired ==> a in s.timers && (s.timers[a].recurring ==> now + s.timers[a].ms < WORD)
  {
    hide Sorted, ListExpired, RolledOver, Deadline;
    ExpiredExact(s, now, sentinel);
    var (t, fired) := ListExpired(s, now, sentinel);
    forall a | a in fired ensures a in s.order && (Deadline(now, s.timers[a].ms) >= s.timers[a].ms <==> now + s.timers[a].ms < WORD) {
      DeadlineExact(now, s.timers[a].ms);
    }
  }

  // The wait that getNextTimer answers ends at the first deadline: zero exactly when a timer
  // is due, otherwise no deadline is earlier and one is reached.
  lemma NextTimerExact(s: State, now: nat)
    requires s.Inv()
    ensures var (t, wait) := NextTimer(s, now);
      && t == s.(tickled := false)
      && (s.order == [] ==> wait == 0xFFFF_FFFF_FFFF_FFFF)
      && (s.order != [] ==>
           && (wait == 0 <==> exists a :: a in s.order && s.timers[a].next <= now)
           && (wait > 0 ==>
                && (forall a :: a in s.order ==> now + wait <= s.timers[a].next)
                && exists a :: a in s.order && s.timers[a].next == now + wait))
  {
    hide Sorted;
    if s.order != [] {
      FirstIsLeast(s.timers, s.order);
      assert s.order[0] in s.order;
    }
  }
}
