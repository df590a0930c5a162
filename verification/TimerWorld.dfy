/** Whole runs of the timer manager, with a history of what was handed out and cancelled. */
module TimerWorld {
  import opened Common
  import opened TimerSet
  import opened TimerRuns

  /**
   * History: `armed` are the timers added with a callback; `fired` and `cancelled` count the
   * callbacks handed out and the successful cancels; `owed` counts the calls of the front hook decided
   * on under the lock and not made yet; `hookSince` and `lastMin` remember whether the hook was called
   * since the last getNextTimer and the first deadline that one saw.
   */
  datatype World = World(m: Manager, armed: set<nat>, fired: multiset<nat>, cancelled: multiset<nat>,
                         owed: nat, hookSince: bool, lastMin: Option<nat>, clock: nat)

  datatype Action =
    | Add(a: nat, ms: nat, cb: Option<nat>, recurring: bool, now: nat)
    | CancelTimer(a: nat)
    | RefreshTimer(a: nat, now: nat)
    | ResetTimer(a: nat, ms: nat, fromNow: bool, now: nat)
    | NextTimer(now: nat)
    | Expire(now: nat, probe: nat)
    | CallHook
    | Tick(clock: nat)

  function Init(now: nat): World {
    World(Manager([], map[], false, now), {}, multiset{}, multiset{}, 0, false, None, now)
  }

  ghost predicate Enabled(w: World, a: Action) {
    && Known(w.m.order, w.m.recs)
    && match a
       case Add(t, _, _, _, _) => t !in w.m.recs
       case CancelTimer(t) => t in w.m.recs && Cancel(w.m, t).1 != Undefined
       case RefreshTimer(t, _) => t in w.m.recs
       case ResetTimer(t, _, _, _) => t in w.m.recs
       case CallHook => w.owed > 0
       case Tick(c) => c >= w.clock
       case _ => true
  }

  function FirstDeadline(m: Manager): Option<nat>
    requires Known(m.order, m.recs)
  {
    if m.order == [] then None else Some(m.recs[m.order[0]].next)
  }

  /** The timers taken out by an expiry, one occurrence each. */
  function TakenOut(m: Manager, n: nat): multiset<nat> {
    if n <= |m.order| then multiset(m.order[..n]) else multiset{}
  }

  function Apply(w: World, a: Action): World
    requires Enabled(w, a)
  {
    match a
    case Add(t, ms, cb, recurring, now) =>
      var (m, hook) := AddTimer(w.m, t, ms, cb, recurring, now);
      w.(m := m, armed := if cb.Some? then w.armed + {t} else w.armed, owed := if hook then w.owed + 1 else w.owed)
    case CancelTimer(t) =>
      var (m, reply) := Cancel(w.m, t);
      w.(m := m, cancelled := if reply == Yes then w.cancelled + multiset{t} else w.cancelled)
    case RefreshTimer(t, now) => w.(m := Refresh(w.m, t, now).0)
    case ResetTimer(t, ms, fromNow, now) =>
      var (m, _, hook) := Reset(w.m, t, ms, fromNow, now);
      w.(m := m, owed := if hook then w.owed + 1 else w.owed)
    case NextTimer(now) => w.(m := GetNextTimer(w.m, now).0, hookSince := false, lastMin := FirstDeadline(w.m))
    case Expire(now, probe) =>
      var (m, cbs) := ListExpired(w.m, now, probe);
      w.(m := m, fired := w.fired + TakenOut(w.m, |cbs|))
    case CallHook => w.(owed := w.owed - 1, hookSince := true)
    case Tick(c) => w.(clock := c)
  }

  ghost predicate IsRun(states: seq<World>, acts: seq<Action>, start: nat) {
    && |states| == |acts| + 1 && states[0] == Init(start)
    && forall i :: 0 <= i < |acts| ==> Enabled(states[i], acts[i]) && states[i + 1] == Apply(states[i], acts[i])
  }

  // ---------------------------------------------------------------- the life of a timer

  function Pending(m: Manager, a: nat): nat { if a in Elems(m.order) then 1 else 0 }

  /** One-shot: pending, fired or cancelled, and exactly one of them, once. Recurring: pending or cancelled. */
  predicate LifeOk(m: Manager, fired: multiset<nat>, cancelled: multiset<nat>, a: nat) {
    if a in m.recs then
      Pending(m, a) + cancelled[a] + (if m.recs[a].recurring then 0 else fired[a]) == 1
    else fired[a] == 0 && cancelled[a] == 0
  }

  ghost predicate Inv(w: World) {
    && ManagerOk(w.m)
    && (forall a :: a in w.m.recs && w.m.recs[a].cb.Some? ==> a in w.armed)
    && (forall a :: a in w.m.recs && a in w.armed && a in Elems(w.m.order) ==> w.m.recs[a].cb.Some?)
    && w.armed <= w.m.recs.Keys
    && (forall a :: LifeOk(w.m, w.fired, w.cancelled, a))
  }

  lemma {:induction false} DistinctCount(s: seq<nat>, a: nat)
    requires forall i, j :: 0 <= i < j < |s| ==> s[i] != s[j]
    ensures multiset(s)[a] == if a in s then 1 else 0
  {
    if s != [] {
      var n := |s| - 1;
      assert s == s[..n] + [s[n]];
      DistinctCount(s[..n], a);
    }
  }

  lemma FiredWhenDue(w: World, now: nat, probe: nat, a: nat)
    requires Inv(w)
    ensures Apply(w, Expire(now, probe)).fired[a] == w.fired[a] + if Expires(w.m, now, a) then 1 else 0
  {
    var k := ExpiryExact(w.m, now, probe);
    FiredBy(w, now, probe, k);
    CountIn(w.m, now, k, a);
  }

  lemma FiredBy(w: World, now: nat, probe: nat, k: nat)
    requires Known(w.m.order, w.m.recs) && k <= |w.m.order|
    requires ListExpired(w.m, now, probe).1 == Callbacks(w.m.order, w.m.recs, k)
    ensures Apply(w, Expire(now, probe)).fired == w.fired + multiset(w.m.order[..k])
  {}

  lemma CountIn(m: Manager, now: nat, k: nat, a: nat)
    requires ManagerOk(m) && k <= |m.order|
    requires forall i :: 0 <= i < |m.order| ==> (Expires(m, now, m.order[i]) <==> i < k)
    ensures multiset(m.order[..k])[a] == if Expires(m, now, a) then 1 else 0
  {
    ExpiredElems(m, now, k);
    DistinctCount(m.order[..k], a);
  }

  lemma ExpireKeeps(w: World, now: nat, probe: nat)
    requires Inv(w)
    ensures Inv(Apply(w, Expire(now, probe)))
  {
    var k := ExpiryExact(w.m, now, probe);
    var w' := Apply(w, Expire(now, probe));
    forall a ensures LifeOk(w'.m, w'.fired, w'.cancelled, a) {
      FiredWhenDue(w, now, probe, a);
      assert LifeOk(w.m, w.fired, w.cancelled, a);
    }
  }

  lemma AddLife(w: World, a: Action)
    requires Inv(w) && a.Add? && Enabled(w, a)
    ensures Inv(Apply(w, a))
  {
    AddKeeps(w.m, a.a, a.ms, a.cb, a.recurring, a.now);
    var w' := Apply(w, a);
    assert w'.m.recs == w.m.recs[a.a := Timer(a.a, a.ms, U64(a.now + a.ms), a.cb, a.recurring)];
    assert a.a !in Elems(w.m.order);
    forall x ensures LifeOk(w'.m, w'.fired, w'.cancelled, x) {
      assert LifeOk(w.m, w.fired, w.cancelled, x);
    }
  }

  lemma CancelLife(w: World, a: nat)
    requires Inv(w) && Enabled(w, CancelTimer(a))
    ensures Inv(Apply(w, CancelTimer(a)))
  {
    CancelKeeps(w.m, a);
    var w' := Apply(w, CancelTimer(a));
    forall x ensures LifeOk(w'.m, w'.fired, w'.cancelled, x) {
      assert LifeOk(w.m, w.fired, w.cancelled, x);
    }
  }

  lemma MoveLife(w: World, a: Action)
    requires Inv(w) && (a.RefreshTimer? || a.ResetTimer?) && Enabled(w, a)
    ensures Inv(Apply(w, a))
  {
    if a.RefreshTimer? { RefreshLife(w, a.a, a.now); } else { ResetLife(w, a.a, a.ms, a.fromNow, a.now); }
  }

  lemma RefreshLife(w: World, t: nat, now: nat)
    requires Inv(w) && t in w.m.recs
    ensures Inv(w.(m := Refresh(w.m, t, now).0))
  {
    RefreshKeeps(w.m, t, now);
    MovedLife(w, w.(m := Refresh(w.m, t, now).0));
  }

  lemma ResetLife(w: World, t: nat, ms: nat, fromNow: bool, now: nat)
    requires Inv(w) && Enabled(w, ResetTimer(t, ms, fromNow, now))
    ensures Inv(Apply(w, ResetTimer(t, ms, fromNow, now)))
  {
    ResetMoved(w.m, t, ms, fromNow, now);
    MovedLife(w, Apply(w, ResetTimer(t, ms, fromNow, now)));
  }

  lemma ResetMoved(m: Manager, t: nat, ms: nat, fromNow: bool, now: nat)
    requires ManagerOk(m) && t in m.recs
    ensures var m' := Reset(m, t, ms, fromNow, now).0;
            && ManagerOk(m') && Elems(m'.order) == Elems(m.order) && m'.recs.Keys == m.recs.Keys
            && forall x :: x in m.recs ==>
                 m'.recs[x].recurring == m.recs[x].recurring && m'.recs[x].cb == m.recs[x].cb
  {
    ResetKeeps(m, t, ms, fromNow, now);
  }

  /** Deadlines and periods do not matter for what becomes of a timer. */
  lemma MovedLife(w: World, w': World)
    requires Inv(w) && ManagerOk(w'.m) && w'.armed == w.armed && w'.fired == w.fired && w'.cancelled == w.cancelled
    requires Elems(w'.m.order) == Elems(w.m.order) && w'.m.recs.Keys == w.m.recs.Keys
    requires forall x :: x in w.m.recs ==>
               w'.m.recs[x].recurring == w.m.recs[x].recurring && w'.m.recs[x].cb == w.m.recs[x].cb
    ensures Inv(w')
  {
    forall x ensures LifeOk(w'.m, w'.fired, w'.cancelled, x) {
      assert LifeOk(w.m, w.fired, w.cancelled, x);
    }
  }

  lemma InvStep(w: World, a: Action)
    requires Inv(w) && Enabled(w, a)
    ensures Inv(Apply(w, a))
  {
    match a
    case Add(_, _, _, _, _) => AddLife(w, a);
    case CancelTimer(t) => CancelLife(w, t);
    case RefreshTimer(_, _) => MoveLife(w, a);
    case ResetTimer(_, _, _, _) => MoveLife(w, a);
    case Expire(now, probe) => ExpireKeeps(w, now, probe);
    case NextTimer(_) =>
      forall x ensures LifeOk(Apply(w, a).m, w.fired, w.cancelled, x) { assert LifeOk(w.m, w.fired, w.cancelled, x); }
    case CallHook =>
    case Tick(_) =>
  }

  lemma {:induction false} RunInv(states: seq<World>, acts: seq<Action>, start: nat, i: nat)
    requires IsRun(states, acts, start) && i < |states|
    ensures Inv(states[i])
  {
    if i > 0 {
      RunInv(states, acts, start, i - 1);
      InvStep(states[i - 1], acts[i - 1]);
    }
  }

  /** Whatever the clock does, each timer has exactly one fate, reached at most once. */
  lemma TimerFate(states: seq<World>, acts: seq<Action>, start: nat, i: nat, a: nat)
    requires IsRun(states, acts, start) && i < |states| && a in states[i].m.recs
    ensures var w := states[i];
            && w.cancelled[a] <= 1
            && (!w.m.recs[a].recurring ==> Pending(w.m, a) + w.fired[a] + w.cancelled[a] == 1)
            && (w.m.recs[a].recurring ==> Pending(w.m, a) + w.cancelled[a] == 1)
  {
    RunInv(states, acts, start, i);
    assert LifeOk(states[i].m, states[i].fired, states[i].cancelled, a);
  }

  lemma StepKeepsTimers(w: World, a: Action, t: nat)
    requires Inv(w) && Enabled(w, a) && t in w.m.recs
    ensures t in Apply(w, a).m.recs && Apply(w, a).m.recs[t].recurring == w.m.recs[t].recurring
    ensures Apply(w, a).fired[t] >= w.fired[t] && Apply(w, a).cancelled[t] >= w.cancelled[t]
    ensures w.cancelled[t] == 1 ==> Apply(w, a).fired[t] == w.fired[t]
  {
    match a
    case Add(x, ms, cb, recurring, now) => AddKeeps(w.m, x, ms, cb, recurring, now);
    case CancelTimer(x) => CancelKeeps(w.m, x);
    case RefreshTimer(x, now) => RefreshKeeps(w.m, x, now);
    case ResetTimer(x, ms, fromNow, now) => ResetKeeps(w.m, x, ms, fromNow, now);
    case Expire(now, probe) =>
      var k := ExpiryExact(w.m, now, probe);
      ExpiredElems(w.m, now, k);
      DistinctCount(w.m.order[..k], t);
      assert LifeOk(w.m, w.fired, w.cancelled, t);
    case _ =>
  }

  /** After cancel has returned true the callback is never handed out again, and cancel never again says yes. */
  lemma {:induction false} CancelIsFinal(states: seq<World>, acts: seq<Action>, start: nat, i: nat, j: nat, a: nat)
    requires IsRun(states, acts, start) && i <= j < |states|
    requires a in states[i].m.recs && states[i].cancelled[a] == 1
    ensures a in states[j].m.recs && states[j].cancelled[a] == 1 && states[j].fired[a] == states[i].fired[a]
    decreases j
  {
    if i == j {
      assert states[j] == states[i];
    } else {
      CancelIsFinal(states, acts, start, i, j - 1, a);
      CancelledNext(states, acts, start, j, a);
    }
  }

  lemma CancelledNext(states: seq<World>, acts: seq<Action>, start: nat, j: nat, a: nat)
    requires IsRun(states, acts, start) && 0 < j < |states|
    requires a in states[j - 1].m.recs && states[j - 1].cancelled[a] == 1
    ensures a in states[j].m.recs && states[j].cancelled[a] == 1 && states[j].fired[a] == states[j - 1].fired[a]
  {
    RunInv(states, acts, start, j - 1);
    StepKeepsTimers(states[j - 1], acts[j - 1], a);
    TimerFate(states, acts, start, j, a);
  }

  /** A timer added with a callback is in the set exactly while its callback is non-null. */
  lemma InSetIffCallback(states: seq<World>, acts: seq<Action>, start: nat, i: nat, a: nat)
    requires IsRun(states, acts, start) && i < |states| && a in states[i].m.recs
    ensures a in states[i].armed ==> (a in states[i].m.order <==> states[i].m.recs[a].cb.Some?)
    ensures a !in states[i].armed ==> states[i].m.recs[a].cb.None?
  {
    RunInv(states, acts, start, i);
    assert a in states[i].m.order <==> a in Elems(states[i].m.order);
  }

  /** A timer added without one is in the set all the same, and nobody can cancel it. */
  lemma NullCallbackInSet(start: nat, ms: nat, recurring: bool) returns (states: seq<World>, acts: seq<Action>)
    ensures IsRun(states, acts, start) && |acts| == 1
    ensures 7 in states[1].m.order && 7 in states[1].m.recs && states[1].m.recs[7].cb.None?
    ensures Known(states[1].m.order, states[1].m.recs) && Cancel(states[1].m, 7).1 == No
  {
    var w, a := Init(start), Add(7, ms, None, recurring, start);
    states, acts := [w, Apply(w, a)], [a];
    AddKeeps(w.m, 7, ms, None, recurring, start);
    CancelKeeps(states[1].m, 7);
    assert 7 in Elems(states[1].m.order);
  }

  /** The set is sorted in every reachable state, and cancel's erase is always of a found element. */
  lemma LookupsSucceed(states: seq<World>, acts: seq<Action>, start: nat, i: nat, a: nat)
    requires IsRun(states, acts, start) && i < |states| && a in states[i].m.recs
    ensures ManagerOk(states[i].m) && Cancel(states[i].m, a).1 != Undefined
    ensures states[i].m.recs[a].cb.Some? ==> Find(states[i].m.order, states[i].m.recs, states[i].m.recs[a]).Some?
  {
    RunInv(states, acts, start, i);
    CancelKeeps(states[i].m, a);
    if states[i].m.recs[a].cb.Some? { FindOwn(states[i].m, a, states[i].m.recs[a]); }
  }

  // ---------------------------------------------------------------- waking the idle thread

  /** A clock that does not go back; readings taken before the lock may be late; deadlines do not wrap. */
  ghost predicate Timely(w: World, a: Action) {
    match a
    case Add(_, ms, _, _, now) => now <= w.clock && now + ms < TWO64
    case RefreshTimer(t, now) => now == w.clock && (t in w.m.recs ==> now + w.m.recs[t].ms < TWO64)
    case ResetTimer(_, ms, _, now) => now == w.clock && now + ms < TWO64
    case Expire(now, _) =>
      && now <= w.clock && !Rollover(w.m.previous, now)
      && forall t :: t in w.m.recs ==> now + w.m.recs[t].ms < TWO64
    case _ => true
  }

  /** Every deadline is a past moment plus the period. */
  ghost predicate DeadlinesOk(m: Manager, clock: nat) {
    forall a :: a in m.recs ==> m.recs[a].ms <= m.recs[a].next <= clock + m.recs[a].ms && m.recs[a].next < TWO64
  }

  /** No deadline in the set is earlier than the first one getNextTimer saw. */
  ghost predicate NothingEarlier(m: Manager, lastMin: Option<nat>) {
    forall a :: a in Elems(m.order) && a in m.recs ==> lastMin.Some? && m.recs[a].next >= lastMin.value
  }

  ghost predicate WakeInv(w: World) {
    && DeadlinesOk(w.m, w.clock)
    && (if w.m.tickled then w.hookSince || w.owed > 0 else NothingEarlier(w.m, w.lastMin))
  }

  /** A timer that was inserted or moved without reaching the front is not the earliest. */
  lemma NotFront(m: Manager, m': Manager, a: nat, lastMin: Option<nat>)
    requires ManagerOk(m) && ManagerOk(m') && NothingEarlier(m, lastMin) && a in Elems(m'.order) && m'.order[0] != a
    requires Elems(m'.order) <= Elems(m.order) + {a}
    requires forall x :: x in Elems(m.order) && x != a ==> x in m'.recs && m'.recs[x] == m.recs[x]
    ensures NothingEarlier(m', lastMin)
  {
    FrontIsFirst(m', a);
    assert m'.order[0] in Elems(m.order);
  }

  lemma WakeAdd(w: World, a: Action)
    requires Inv(w) && WakeInv(w) && a.Add? && Enabled(w, a) && Timely(w, a)
    ensures WakeInv(Apply(w, a))
  {
    AddKeeps(w.m, a.a, a.ms, a.cb, a.recurring, a.now);
    var w' := Apply(w, a);
    assert w'.m.recs == w.m.recs[a.a := Timer(a.a, a.ms, a.now + a.ms, a.cb, a.recurring)];
    if !w'.m.tickled {
      NotFront(w.m, w'.m, a.a, w.lastMin);
    }
  }

  lemma ResetNoWrap(t: Timer, ms: nat, fromNow: bool, clock: nat)
    requires t.ms <= t.next <= clock + t.ms && t.next < TWO64 && clock + ms < TWO64
    ensures AfterReset(t, ms, fromNow, clock) == t.(ms := ms, next := (if fromNow then clock else t.next - t.ms) + ms)
  {}

  /** One timer's fields become `t`, again a past moment plus a period. */
  lemma DeadlinesMoved(m: Manager, m': Manager, t: Timer, clock: nat)
    requires DeadlinesOk(m, clock) && m'.recs == m.recs[t.addr := t]
    requires t.ms <= t.next <= clock + t.ms && t.next < TWO64
    ensures DeadlinesOk(m', clock)
  {}

  lemma WakeReset(w: World, a: Action)
    requires Inv(w) && WakeInv(w) && a.ResetTimer? && Enabled(w, a) && Timely(w, a)
    ensures WakeInv(Apply(w, a))
  {
    var (m', _, hook) := Reset(w.m, a.a, a.ms, a.fromNow, a.now);
    var t := w.m.recs[a.a];
    ResetKeeps(w.m, a.a, a.ms, a.fromNow, a.now);
    if !(a.ms == t.ms && !a.fromNow) && t.cb.Some? {
      ResetNoWrap(t, a.ms, a.fromNow, a.now);
      DeadlinesMoved(w.m, m', AfterReset(t, a.ms, a.fromNow, a.now), w.clock);
      assert a.a in Elems(m'.order);
      if !w.m.tickled && !hook {
        FrontIsFirst(m', a.a);
        NotFront(w.m, m', a.a, w.lastMin);
      }
    }
  }

  lemma Later(m: Manager, m': Manager, t: Timer, lastMin: Option<nat>)
    requires NothingEarlier(m, lastMin) && t.addr in m.recs && t.next >= m.recs[t.addr].next
    requires m'.recs == m.recs[t.addr := t] && Elems(m'.order) == Elems(m.order)
    ensures NothingEarlier(m', lastMin)
  {}

  lemma WakeRefresh(w: World, a: Action)
    requires Inv(w) && WakeInv(w) && a.RefreshTimer? && Enabled(w, a) && Timely(w, a)
    ensures WakeInv(Apply(w, a))
  {
    var m', t := RefreshFacts(w.m, a.a, a.now);
    LaterWake(w, m', t);
  }

  lemma RefreshFacts(m: Manager, a: nat, now: nat) returns (m': Manager, t: Timer)
    requires ManagerOk(m) && a in m.recs && now + m.recs[a].ms < TWO64
    ensures m' == Refresh(m, a, now).0 && m'.recs == m.recs[a := t] && t.addr == a && t.ms == m.recs[a].ms
    ensures Elems(m'.order) == Elems(m.order) && m'.tickled == m.tickled
    ensures t.next == m.recs[a].next || t.next == now + t.ms
  {
    if m.recs[a].cb.None? { m', t := RefreshNone(m, a, now); } else { m', t := RefreshSome(m, a, now); }
  }

  lemma RefreshNone(m: Manager, a: nat, now: nat) returns (m': Manager, t: Timer)
    requires ManagerOk(m) && a in m.recs && m.recs[a].cb.None?
    ensures m' == Refresh(m, a, now).0 == m && t == m.recs[a] && m.recs == m.recs[a := t] && t.addr == a
  {
    m', t := m, m.recs[a];
    assert m.recs[a := m.recs[a]] == m.recs;
  }

  lemma RefreshSome(m: Manager, a: nat, now: nat) returns (m': Manager, t: Timer)
    requires ManagerOk(m) && a in m.recs && m.recs[a].cb.Some? && now + m.recs[a].ms < TWO64
    ensures m' == Refresh(m, a, now).0 && t == m.recs[a].(next := now + m.recs[a].ms) && t.addr == a
    ensures m'.recs == m.recs[a := t] && Elems(m'.order) == Elems(m.order) && m'.tickled == m.tickled
  {
    RefreshKeeps(m, a, now);
    m', t := Refresh(m, a, now).0, m.recs[a].(next := now + m.recs[a].ms);
  }

  /** The clock has not gone back, so the new deadline is not earlier than the old one. */
  lemma LaterWake(w: World, m': Manager, t: Timer)
    requires WakeInv(w) && t.addr in w.m.recs && t.next >= w.m.recs[t.addr].next
    requires m'.recs == w.m.recs[t.addr := t] && Elems(m'.order) == Elems(w.m.order) && m'.tickled == w.m.tickled
    requires t.ms <= t.next <= w.clock + t.ms && t.next < TWO64
    ensures WakeInv(w.(m := m'))
  {
    DeadlinesMoved(w.m, m', t, w.clock);
    if !w.m.tickled { Later(w.m, m', t, w.lastMin); }
  }

  /** An expired deadline has passed, so its replacement is not earlier. */
  lemma ExpiredLater(m: Manager, m': Manager, now: nat, clock: nat, lastMin: Option<nat>)
    requires DeadlinesOk(m, clock) && now <= clock && !Rollover(m.previous, now)
    requires forall a :: a in m.recs ==> now + m.recs[a].ms < TWO64
    requires m'.recs.Keys == m.recs.Keys
    requires forall a :: a in m.recs ==> m'.recs[a] == if Expires(m, now, a) then Expired(m.recs[a], now) else m.recs[a]
    requires forall a :: a in Elems(m'.order) ==> a in Elems(m.order)
    ensures DeadlinesOk(m', clock) && (NothingEarlier(m, lastMin) ==> NothingEarlier(m', lastMin))
  {
    forall a | a in m.recs
      ensures m'.recs[a].next >= m.recs[a].next && m'.recs[a].ms <= m'.recs[a].next <= clock + m'.recs[a].ms
              && m'.recs[a].next < TWO64
    {
      assert U64(now + m.recs[a].ms) == now + m.recs[a].ms;
    }
  }

  lemma WakeExpire(w: World, now: nat, probe: nat)
    requires Inv(w) && WakeInv(w) && Timely(w, Expire(now, probe))
    ensures WakeInv(Apply(w, Expire(now, probe)))
  {
    var m' := ListExpired(w.m, now, probe).0;
    var _ := ExpiryExact(w.m, now, probe);
    ExpiredLater(w.m, m', now, w.clock, w.lastMin);
  }

  lemma WakeStep(w: World, a: Action)
    requires Inv(w) && WakeInv(w) && Enabled(w, a) && Timely(w, a)
    ensures WakeInv(Apply(w, a))
  {
    match a
    case Add(_, _, _, _, _) => WakeAdd(w, a);
    case CancelTimer(t) => CancelKeeps(w.m, t);
    case RefreshTimer(_, _) => WakeRefresh(w, a);
    case ResetTimer(_, _, _, _) => WakeReset(w, a);
    case Expire(now, probe) => WakeExpire(w, now, probe);
    case NextTimer(_) =>
      forall x | x in Elems(w.m.order)
        ensures FirstDeadline(w.m).Some? && w.m.recs[x].next >= FirstDeadline(w.m).value
      {
        FrontIsFirst(w.m, x);
      }
    case CallHook =>
    case Tick(_) =>
  }

  lemma {:induction false} WakeRun(states: seq<World>, acts: seq<Action>, start: nat, i: nat)
    requires IsRun(states, acts, start) && i < |states|
    requires forall k :: 0 <= k < |acts| ==> Timely(states[k], acts[k])
    ensures WakeInv(states[i])
  {
    if i > 0 {
      WakeRun(states, acts, start, i - 1);
      RunInv(states, acts, start, i - 1);
      WakeStep(states[i - 1], acts[i - 1]);
    }
  }

  /**
   * If the first deadline is now earlier than the one the last getNextTimer saw (or there was none
   * then), the front hook has been called since, or a thread has left the lock to call it.
   */
  lemma EarlierDeadlineWakes(states: seq<World>, acts: seq<Action>, start: nat, i: nat)
    requires IsRun(states, acts, start) && i < |states|
    requires forall k :: 0 <= k < |acts| ==> Timely(states[k], acts[k])
    requires Known(states[i].m.order, states[i].m.recs) && states[i].m.order != []
    requires states[i].lastMin.None? || states[i].m.recs[states[i].m.order[0]].next < states[i].lastMin.value
    ensures states[i].hookSince || states[i].owed > 0
  {
    WakeRun(states, acts, start, i);
    assert states[i].m.order[0] in Elems(states[i].m.order);
  }
}
