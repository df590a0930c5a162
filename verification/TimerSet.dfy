/**
 * The timer manager (hx_sylar/timer.cc): a set of timers ordered by a deadline that changes while
 * the manager holds them. The clock reading is an input of every operation; 64-bit arithmetic
 * wraps.
 */
module TimerSet {
  import opened Common

  const TWO64 := 0x1_0000_0000_0000_0000
  const HOUR_MS := 60 * 60 * 1000

  /** The value of a 64-bit unsigned expression. */
  function U64(x: int): nat { if 0 <= x < TWO64 then x else x % TWO64 }

  /** A timer's fields; `addr` is the object's address, the tie-breaker of the order. */
  datatype Timer = Timer(addr: nat, ms: nat, next: nat, cb: Option<nat>, recurring: bool)

  /** `Timer::Comparator` on non-null pointers. */
  predicate Less(a: Timer, b: Timer) {
    a.next < b.next || (a.next == b.next && a.addr < b.addr)
  }

  type Timers = map<nat, Timer>

  /** `order` is the content of `m_timers`, front first; `recs` has every timer that was ever added. */
  datatype Manager = Manager(order: seq<nat>, recs: Timers, tickled: bool, previous: nat)

  predicate Known(order: seq<nat>, recs: Timers) {
    forall i :: 0 <= i < |order| ==> order[i] in recs
  }

  /** Strictly ordered by the comparator, hence without duplicates. */
  predicate Sorted(order: seq<nat>, recs: Timers)
    requires Known(order, recs)
  {
    forall i, j {:trigger Less(recs[order[i]], recs[order[j]])} :: 0 <= i < j < |order| ==>
      Less(recs[order[i]], recs[order[j]])
  }

  /** The timers in the set, without their order. */
  function Elems(order: seq<nat>): set<nat> { set x | x in order }

  // ---------------------------------------------------------------- the ordered set

  /** `lower_bound`: the first index whose timer is not less than `key`. */
  function LowerBound(order: seq<nat>, recs: Timers, key: Timer): (k: nat)
    requires Known(order, recs)
    ensures k <= |order|
    ensures forall i :: 0 <= i < k ==> Less(recs[order[i]], key)
    ensures k < |order| ==> !Less(recs[order[k]], key)
  {
    if order == [] || !Less(recs[order[0]], key) then 0
    else
      var r := LowerBound(order[1..], recs, key);
      assert forall i :: 1 <= i < r + 1 ==> order[i] == order[1..][i - 1];
      r + 1
  }

  /** `find`: by the comparator only, so a timer out of place would not be found. */
  function Find(order: seq<nat>, recs: Timers, key: Timer): Option<nat>
    requires Known(order, recs)
  {
    var k := LowerBound(order, recs, key);
    if k < |order| && !Less(key, recs[order[k]]) then Some(k) else None
  }

  function Insert(order: seq<nat>, recs: Timers, a: nat): seq<nat>
    requires Known(order, recs) && a in recs
  {
    var k := LowerBound(order, recs, recs[a]);
    order[..k] + [a] + order[k..]
  }

  // ---------------------------------------------------------------- operations

  /** End of the private addTimer: call the hook if `a` went to the front and no call is outstanding. */
  function FrontHook(m: Manager, a: nat): (Manager, bool) {
    var atFront := m.order != [] && m.order[0] == a && !m.tickled;
    (m.(tickled := m.tickled || atFront), atFront)
  }

  function AddTimer(m: Manager, a: nat, ms: nat, cb: Option<nat>, recurring: bool, now: nat): (Manager, bool)
    requires Known(m.order, m.recs)
  {
    var recs := m.recs[a := Timer(a, ms, U64(now + ms), cb, recurring)];
    FrontHook(m.(recs := recs, order := Insert(m.order, recs, a)), a)
  }

  datatype Reply =
    | Yes
    | No
    | Undefined   // erase of an iterator that find did not return

  function Cancel(m: Manager, a: nat): (Manager, Reply)
    requires Known(m.order, m.recs) && a in m.recs
  {
    var t := m.recs[a];
    if t.cb.None? then (m, No)
    else
      var recs := m.recs[a := t.(cb := None)];
      match Find(m.order, recs, recs[a])
      case None => (m, Undefined)
      case Some(k) => (m.(order := RemoveAt(m.order, k), recs := recs), Yes)
  }

  /** The timer at index `k` is erased, its fields become `t`, and it is inserted again. */
  function Moved(m: Manager, k: nat, t: Timer): Manager
    requires Known(m.order, m.recs) && k < |m.order|
  {
    var recs := m.recs[t.addr := t];
    m.(order := Insert(RemoveAt(m.order, k), recs, t.addr), recs := recs)
  }

  function Refresh(m: Manager, a: nat, now: nat): (Manager, bool)
    requires Known(m.order, m.recs) && a in m.recs
  {
    var t := m.recs[a];
    if t.cb.None? then (m, false)
    else
      match Find(m.order, m.recs, t)
      case None => (m, false)
      case Some(k) =>
        (Moved(m, k, t.(addr := a, next := U64(now + t.ms))), true)
  }

  /** The fields after a reset: the period counts from now, or from where the old one started. */
  function AfterReset(t: Timer, ms: nat, fromNow: bool, now: nat): Timer {
    t.(ms := ms, next := U64((if fromNow then now else U64(t.next - t.ms)) + ms))
  }

  /** Result: the manager, what reset returns, and whether the front hook was called. */
  function Reset(m: Manager, a: nat, ms: nat, fromNow: bool, now: nat): (Manager, bool, bool)
    requires Known(m.order, m.recs) && a in m.recs
  {
    var t := m.recs[a];
    if ms == t.ms && !fromNow then (m, true, false)
    else if t.cb.None? then (m, false, false)
    else
      match Find(m.order, m.recs, t)
      case None => (m, false, false)
      case Some(k) =>
        var (m1, hook) := FrontHook(Moved(m, k, AfterReset(t, ms, fromNow, now).(addr := a)), a);
        (m1, true, hook)
  }

  /** The wait until the first deadline; None stands for `~0ull`. */
  function GetNextTimer(m: Manager, now: nat): (Manager, Option<nat>)
    requires Known(m.order, m.recs)
  {
    (m.(tickled := false),
     if m.order == [] then None
     else if now >= m.recs[m.order[0]].next then Some(0)
     else Some(m.recs[m.order[0]].next - now))
  }

  /** `detectClockRollover`: the clock went back by more than an hour (the subtraction wraps). */
  predicate Rollover(previous: nat, now: nat) {
    now < previous && now < U64(previous - HOUR_MS)
  }

  /** Skips the timers whose deadline is exactly `now`, from index `i`. */
  function SkipEqual(order: seq<nat>, recs: Timers, now: nat, i: nat): (k: nat)
    requires Known(order, recs) && i <= |order|
    ensures i <= k <= |order|
    ensures forall j :: i <= j < k ==> recs[order[j]].next == now
    ensures k < |order| ==> recs[order[k]].next != now
    decreases |order| - i
  {
    if i < |order| && recs[order[i]].next == now then SkipEqual(order, recs, now, i + 1) else i
  }

  /** How many timers are taken out: the code compares with a probe timer at an arbitrary address. */
  function ExpiredCount(order: seq<nat>, recs: Timers, rollover: bool, now: nat, probe: nat): (k: nat)
    requires Known(order, recs)
    ensures k <= |order|
  {
    SkipEqual(order, recs, now,
      if rollover then |order| else LowerBound(order, recs, Timer(probe, 0, now, None, false)))
  }

  /** One expired timer: a recurring one is given its next deadline and put back, a one-shot is cleared. */
  function Rearm(order: seq<nat>, recs: Timers, a: nat, now: nat): (seq<nat>, Timers)
    requires Known(order, recs) && a in recs
  {
    var t := recs[a];
    if t.recurring then
      var recs1 := recs[a := t.(next := U64(now + t.ms))];
      (Insert(order, recs1, a), recs1)
    else (order, recs[a := t.(cb := None)])
  }

  function RearmAll(order: seq<nat>, recs: Timers, expired: seq<nat>, now: nat): (r: (seq<nat>, Timers))
    requires Known(order, recs) && forall i :: 0 <= i < |expired| ==> expired[i] in recs
    ensures Known(r.0, r.1) && r.1.Keys == recs.Keys
  {
    if expired == [] then (order, recs)
    else
      var (o, rs) := RearmAll(order, recs, expired[..|expired| - 1], now);
      Rearm(o, rs, expired[|expired| - 1], now)
  }

  /** The callbacks of the first `k` timers. */
  function Callbacks(order: seq<nat>, recs: Timers, k: nat): (r: seq<Option<nat>>)
    requires Known(order, recs) && k <= |order|
    ensures |r| == k && forall i :: 0 <= i < k ==> r[i] == recs[order[i]].cb
  {
    seq(k, i requires 0 <= i < k => recs[order[i]].cb)
  }

  /** The first `k` timers are taken out and treated one by one. */
  function Cut(m: Manager, k: nat, now: nat): Manager
    requires Known(m.order, m.recs) && k <= |m.order|
  {
    var (order, recs) := RearmAll(m.order[k..], m.recs, m.order[..k], now);
    m.(order := order, recs := recs, previous := now)
  }

  /** Result: the manager and the callbacks handed out, in order. */
  function ListExpired(m: Manager, now: nat, probe: nat): (Manager, seq<Option<nat>>)
    requires Known(m.order, m.recs)
  {
    if m.order == [] then (m, [])
    else
      var rollover := Rollover(m.previous, now);
      if !rollover && m.recs[m.order[0]].next > now then (m.(previous := now), [])
      else
        var k := ExpiredCount(m.order, m.recs, rollover, now, probe);
        (Cut(m, k, now), Callbacks(m.order, m.recs, k))
  }

  // ---------------------------------------------------------------- facts about the order

  lemma SortedDistinct(order: seq<nat>, recs: Timers)
    requires Known(order, recs) && Sorted(order, recs)
    ensures forall i, j :: 0 <= i < j < |order| ==> order[i] != order[j]
  {
    forall i, j | 0 <= i < j < |order| ensures order[i] != order[j] {
      assert Less(recs[order[i]], recs[order[j]]);
    }
  }

  /** In a sorted set the comparator finds every member, at its own place. */
  lemma FindMember(order: seq<nat>, recs: Timers, i: nat, key: Timer)
    requires Known(order, recs) && Sorted(order, recs) && i < |order|
    requires key.next == recs[order[i]].next && key.addr == recs[order[i]].addr
    ensures Find(order, recs, key) == Some(i)
  {
    forall j | 0 <= j < i ensures Less(recs[order[j]], key) {
      assert Less(recs[order[j]], recs[order[i]]);
    }
  }

  /** Where everything sits after an insertion, and that the new timer splits the order there. */
  lemma InsertAt(order: seq<nat>, recs: Timers, a: nat)
    requires Known(order, recs) && Sorted(order, recs) && a in recs && recs[a].addr == a
    requires forall i :: 0 <= i < |order| ==> recs[order[i]].addr == order[i] && order[i] != a
    ensures var k, r := LowerBound(order, recs, recs[a]), Insert(order, recs, a);
            && |r| == |order| + 1
            && (forall i :: 0 <= i < |r| ==> r[i] == if i < k then order[i] else if i == k then a else order[i - 1])
            && (forall i :: k <= i < |order| ==> Less(recs[a], recs[order[i]]))
  {
    var k := LowerBound(order, recs, recs[a]);
    forall i | k <= i < |order| ensures Less(recs[a], recs[order[i]]) {
      assert !Less(recs[order[k]], recs[a]) && recs[order[k]].addr != a;
      assert k < i ==> Less(recs[order[k]], recs[order[i]]);
    }
  }

  lemma InsertSorted(order: seq<nat>, recs: Timers, a: nat)
    requires Known(order, recs) && Sorted(order, recs) && a in recs && recs[a].addr == a
    requires forall i :: 0 <= i < |order| ==> recs[order[i]].addr == order[i] && order[i] != a
    ensures Known(Insert(order, recs, a), recs) && Sorted(Insert(order, recs, a), recs)
    ensures Insert(order, recs, a)[0] == a <==> order == [] || Less(recs[a], recs[order[0]])
  {
    InsertAt(order, recs, a);
    var k, r := LowerBound(order, recs, recs[a]), Insert(order, recs, a);
    forall i, j | 0 <= i < j < |r| ensures Less(recs[r[i]], recs[r[j]]) {
      if j == k {
        assert Less(recs[order[i]], recs[a]);
      } else if i == k {
        assert Less(recs[a], recs[order[j - 1]]);
      } else {
        assert Less(recs[order[if i < k then i else i - 1]], recs[order[if j < k then j else j - 1]]);
      }
    }
  }

  lemma InsertMembers(order: seq<nat>, recs: Timers, a: nat)
    requires Known(order, recs) && a in recs
    ensures Elems(Insert(order, recs, a)) == Elems(order) + {a}
  {
    var k := LowerBound(order, recs, recs[a]);
    assert order == order[..k] + order[k..];
  }

  lemma RemoveSorted(order: seq<nat>, recs: Timers, k: nat)
    requires Known(order, recs) && Sorted(order, recs) && k < |order|
    ensures Known(RemoveAt(order, k), recs) && Sorted(RemoveAt(order, k), recs)
  {
    var r := RemoveAt(order, k);
    forall i, j | 0 <= i < j < |r| ensures Less(recs[r[i]], recs[r[j]]) {
      assert Less(recs[order[if i < k then i else i + 1]], recs[order[if j < k then j else j + 1]]);
    }
  }

  lemma RemoveElems(order: seq<nat>, k: nat)
    requires k < |order| && forall i, j :: 0 <= i < j < |order| ==> order[i] != order[j]
    ensures Elems(RemoveAt(order, k)) == Elems(order) - {order[k]}
  {
    var r := RemoveAt(order, k);
    forall x | x in Elems(order) - {order[k]} ensures x in r {
      var j :| 0 <= j < |order| && order[j] == x;
      assert r[if j < k then j else j - 1] == x;
    }
  }

  /** A change to a timer outside the set does not disturb the order. */
  lemma OrderFrame(order: seq<nat>, recs: Timers, recs': Timers)
    requires Known(order, recs) && Sorted(order, recs) && Known(order, recs')
    requires forall i :: 0 <= i < |order| ==>
               recs'[order[i]].next == recs[order[i]].next && recs'[order[i]].addr == recs[order[i]].addr
    ensures Sorted(order, recs')
  {
    forall i, j | 0 <= i < j < |order| ensures Less(recs'[order[i]], recs'[order[j]]) {
      assert Less(recs[order[i]], recs[order[j]]);
    }
  }
}
