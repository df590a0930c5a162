/** Timers and their manager in imperative form: the set holds objects whose deadlines are fields. */
module TimerManager {
  import opened Common
  import opened TimerSet
  import opened TimerRuns

  class TimerObject {
    const addr: nat          // stands for the object's address
    const recurring: bool
    var ms: nat
    var next: nat
    var cb: Option<nat>

    constructor (addr: nat, ms: nat, cb: Option<nat>, recurring: bool, now: nat)
      ensures Value() == Timer(addr, ms, U64(now + ms), cb, recurring)
    {
      this.addr, this.recurring, this.ms, this.cb := addr, recurring, ms, cb;
      next := U64(now + ms);
    }

    ghost function Value(): Timer
      reads this
    {
      Timer(addr, ms, next, cb, recurring)
    }
  }

  class TimerManager {
    var timers: seq<TimerObject>          // m_timers, front first
    ghost var all: map<nat, TimerObject>  // every timer this manager has made, by address
    var tickled: bool
    var previousTime: nat
    var hookCalls: nat                    // calls of onTimerInsertedAtFront

    ghost function Order(): (r: seq<nat>)
      reads this`timers
      ensures |r| == |timers| && forall i :: 0 <= i < |r| ==> r[i] == timers[i].addr
    {
      Addrs(timers)
    }

    ghost function Recs(): (r: Timers)
      reads this`all, all.Values
      ensures r.Keys == all.Keys && forall a :: a in r ==> r[a] == all[a].Value()
    {
      map a | a in all :: all[a].Value()
    }

    ghost function View(): Manager
      reads this, all.Values
    {
      Manager(Order(), Recs(), tickled, previousTime)
    }

    /**
     * The objects in the set and the map agree. That the set is also sorted is `ManagerOk(View())`,
     * which every operation keeps by the lemma about its specification (AddKeeps and so on).
     */
    ghost predicate Linked()
      reads this`timers, this`all
    {
      && (forall a :: a in all ==> all[a].addr == a)
      && (forall i :: 0 <= i < |timers| ==> timers[i].addr in all && all[timers[i].addr] == timers[i])
    }

    constructor (now: nat)
      ensures Linked() && View() == Manager([], map[], false, now) && ManagerOk(View()) && hookCalls == 0
    {
      timers, all, tickled, previousTime, hookCalls := [], map[], false, now, 0;
    }

    /** Binary search by the comparator; right only because the set is sorted. */
    method LowerBound(key: TimerObject) returns (k: nat)
      requires Linked() && Sorted(Order(), Recs())
      ensures k == TimerSet.LowerBound(Order(), Recs(), key.Value())
    {
      var lo, hi := 0, |timers|;
      while lo < hi
        invariant 0 <= lo <= hi <= |timers|
        invariant forall i :: 0 <= i < lo ==> Less(timers[i].Value(), key.Value())
        invariant forall i :: hi <= i < |timers| ==> !Less(timers[i].Value(), key.Value())
      {
        var mid := (lo + hi) / 2;
        SortedAround(Order(), Recs(), mid, key.Value());
        if timers[mid].next < key.next || (timers[mid].next == key.next && timers[mid].addr < key.addr) {
          lo := mid + 1;
        } else {
          hi := mid;
        }
      }
      k := lo;
      LowerBoundIs(Order(), Recs(), key.Value(), k);
    }

    method FindTimer(t: TimerObject) returns (k: Option<nat>)
      requires Linked() && Sorted(Order(), Recs())
      ensures k == Find(Order(), Recs(), t.Value())
      ensures k.Some? ==> k.value < |timers|
    {
      var b := LowerBound(t);
      if b < |timers| && !(t.next < timers[b].next || (t.next == timers[b].next && t.addr < timers[b].addr)) {
        k := Some(b);
      } else {
        k := None;
      }
    }

    method InsertTimer(t: TimerObject)
      requires Linked() && Sorted(Order(), Recs()) && t.addr in all && all[t.addr] == t
      modifies this`timers
      ensures Linked() && Order() == Insert(old(Order()), Recs(), t.addr) && Recs() == old(Recs())
    {
      var k := LowerBound(t);
      InsertAt(t, k);
    }

    method InsertAt(t: TimerObject, k: nat)
      requires Linked() && k <= |timers| && t.addr in all && all[t.addr] == t
      modifies this`timers
      ensures Linked() && Order() == old(Order())[..k] + [t.addr] + old(Order())[k..] && Recs() == old(Recs())
    {
      timers := timers[..k] + [t] + timers[k..];
    }

    /** The tail of the private addTimer. */
    method CallHook(t: TimerObject)
      requires Linked()
      modifies this`tickled, this`hookCalls
      ensures var (m, hook) := FrontHook(old(View()), t.addr);
              View() == m && hookCalls == old(hookCalls) + if hook then 1 else 0
    {
      var atFront := |timers| > 0 && timers[0].addr == t.addr && !tickled;
      if atFront {
        tickled := true;
        hookCalls := hookCalls + 1;
      }
    }

    /** `addr` is where the new object happens to be allocated. */
    method AddTimer(addr: nat, ms: nat, cb: Option<nat>, recurring: bool, now: nat) returns (t: TimerObject)
      requires Linked() && ManagerOk(View()) && addr !in all
      modifies this
      ensures Linked() && fresh(t) && all == old(all)[addr := t]
      ensures var (m, hook) := TimerSet.AddTimer(old(View()), addr, ms, cb, recurring, now);
              View() == m && hookCalls == old(hookCalls) + if hook then 1 else 0
    {
      t := NewTimer(addr, ms, cb, recurring, now);
      InsertTimer(t);
      CallHook(t);
    }

    method NewTimer(addr: nat, ms: nat, cb: Option<nat>, recurring: bool, now: nat) returns (t: TimerObject)
      requires Linked() && ManagerOk(View()) && addr !in all
      modifies this`all
      ensures Linked() && fresh(t) && t.addr == addr && all == old(all)[addr := t]
      ensures t.Value() == Timer(addr, ms, U64(now + ms), cb, recurring)
      ensures Order() == old(Order()) && Recs() == old(Recs())[addr := t.Value()] && Sorted(Order(), Recs())
    {
      t := new TimerObject(addr, ms, cb, recurring, now);
      all := all[addr := t];
      assert Recs() == old(Recs())[addr := t.Value()];
      assert Order() == old(Order());
      OrderFrame(Order(), old(Recs()), Recs());
    }

    method Erase(k: nat)
      requires Linked() && k < |timers|
      modifies this`timers
      ensures Linked() && Order() == RemoveAt(old(Order()), k) && Recs() == old(Recs())
    {
      timers := timers[..k] + timers[k + 1..];
      assert Order() == RemoveAt(old(Order()), k);
      assert Recs() == old(Recs());
    }

    method ClearCallback(t: TimerObject)
      requires Linked() && ManagerOk(View()) && t.addr in all && all[t.addr] == t
      modifies t`cb
      ensures Linked() && View() == old(View()).(recs := Cleared(old(View()).recs, t.addr))
      ensures t.Value() == View().recs[t.addr] && Sorted(Order(), Recs())
    {
      t.cb := None;
      assert Recs() == old(Recs())[t.addr := t.Value()];
      assert t.Value() == old(t.Value()).(cb := None);
      OrderFrame(Order(), old(Recs()), Recs());
    }

    method Cancel(t: TimerObject) returns (done: bool)
      requires Linked() && ManagerOk(View()) && t.addr in all && all[t.addr] == t
      modifies this`timers, t`cb
      ensures Linked() && View() == TimerSet.Cancel(old(View()), t.addr).0
      ensures done <==> TimerSet.Cancel(old(View()), t.addr).1 == Yes
    {
      assert View().recs[t.addr] == t.Value();
      if t.cb.None? { return false; }
      CancelSet(t);
      return true;
    }

    method CancelSet(t: TimerObject)
      requires Linked() && ManagerOk(View()) && t.addr in all && all[t.addr] == t && t.cb.Some?
      modifies this`timers, t`cb
      ensures Linked() && (View(), Yes) == TimerSet.Cancel(old(View()), t.addr)
    {
      var k := FindCleared(t);
      CancelFound(old(View()), t.addr, k);
      Erase(k);
    }

    /** Clears the callback first and looks the timer up afterwards, as `cancel` does. */
    method FindCleared(t: TimerObject) returns (k: nat)
      requires Linked() && ManagerOk(View()) && t.addr in all && all[t.addr] == t && t.cb.Some?
      modifies t`cb
      ensures Linked() && View() == old(View()).(recs := Cleared(old(View()).recs, t.addr)) && k < |timers|
      ensures Find(old(View()).order, Cleared(old(View()).recs, t.addr), Cleared(old(View()).recs, t.addr)[t.addr]) ==
                Some(k)
    {
      ghost var m := View();
      CancelFinds(m, t.addr);
      ClearCallback(t);
      assert Order() == m.order && Recs() == Cleared(m.recs, t.addr);
      var f := FindTimer(t);
      k := f.value;
    }

    /** Erases the timer at `k`, writes its new deadline and period, and inserts it again. */
    method Relocate(t: TimerObject, k: nat, ms: nat, next: nat)
      requires Linked() && ManagerOk(View()) && t.addr in all && all[t.addr] == t
      requires k < |timers| && timers[k] == t
      modifies this`timers, t`next, t`ms
      ensures Linked() && View() == Moved(old(View()), k, old(t.Value()).(ms := ms, next := next))
    {
      ghost var was := View();
      Erase(k);
      t.ms := ms;
      t.next := next;
      assert Recs() == was.recs[t.addr := t.Value()];
      OrderFrameMoved(was, k, t.Value());
      InsertTimer(t);
    }

    method Refresh(t: TimerObject, now: nat) returns (done: bool)
      requires Linked() && ManagerOk(View()) && t.addr in all && all[t.addr] == t
      modifies this`timers, t`next, t`ms
      ensures Linked()
      ensures var (m, r) := TimerSet.Refresh(old(View()), t.addr, now); View() == m && done == r
    {
      if t.cb.None? { return false; }
      var k := FindTimer(t);
      if k.None? { return false; }
      RefreshFound(View(), t.addr, now, k.value);
      FoundIsOwn(View(), t.addr, k.value);
      RefreshAt(t, k.value, now);
      return true;
    }

    method RefreshAt(t: TimerObject, k: nat, now: nat)
      requires Linked() && ManagerOk(View()) && t.addr in all && all[t.addr] == t
      requires k < |timers| && timers[k] == t
      modifies this`timers, t`next, t`ms
      ensures Linked() && View() == Moved(old(View()), k, Refreshed(old(View()).recs[t.addr], now))
    {
      var next := U64(now + t.ms);
      assert Refreshed(View().recs[t.addr], now) == t.Value().(ms := t.ms, next := next);
      Relocate(t, k, t.ms, next);
    }

    method MoveAndHook(t: TimerObject, k: nat, ms: nat, next: nat)
      requires Linked() && ManagerOk(View()) && t.addr in all && all[t.addr] == t
      requires k < |timers| && timers[k] == t
      modifies this`timers, this`tickled, this`hookCalls, t`next, t`ms
      ensures Linked()
      ensures var (m, hook) := FrontHook(Moved(old(View()), k, old(t.Value()).(ms := ms, next := next)), t.addr);
              View() == m && hookCalls == old(hookCalls) + if hook then 1 else 0
    {
      Relocate(t, k, ms, next);
      CallHook(t);
    }

    method Reset(t: TimerObject, ms: nat, fromNow: bool, now: nat) returns (done: bool)
      requires Linked() && ManagerOk(View()) && t.addr in all && all[t.addr] == t
      modifies this`timers, this`tickled, this`hookCalls, t`next, t`ms
      ensures Linked()
      ensures var (m, r, hook) := TimerSet.Reset(old(View()), t.addr, ms, fromNow, now);
              View() == m && done == r && hookCalls == old(hookCalls) + if hook then 1 else 0
    {
      if ms == t.ms && !fromNow { return true; }
      if t.cb.None? { return false; }
      var k := FindTimer(t);
      if k.None? { return false; }
      ResetFound(View(), t.addr, ms, fromNow, now, k.value);
      FoundIsOwn(View(), t.addr, k.value);
      ResetAt(t, k.value, ms, fromNow, now);
      return true;
    }

    method ResetAt(t: TimerObject, k: nat, ms: nat, fromNow: bool, now: nat)
      requires Linked() && ManagerOk(View()) && t.addr in all && all[t.addr] == t
      requires k < |timers| && timers[k] == t
      modifies this`timers, this`tickled, this`hookCalls, t`next, t`ms
      ensures Linked()
      ensures var (m, hook) := FrontHook(Moved(old(View()), k, AfterReset(old(Recs())[t.addr], ms, fromNow, now)),
                                         t.addr);
              View() == m && hookCalls == old(hookCalls) + if hook then 1 else 0
    {
      var start := if fromNow then now else U64(t.next - t.ms);
      assert AfterReset(Recs()[t.addr], ms, fromNow, now) == t.Value().(ms := ms, next := U64(start + ms));
      MoveAndHook(t, k, ms, U64(start + ms));
    }

    /** None stands for `~0ull`. */
    method GetNextTimer(now: nat) returns (wait: Option<nat>)
      requires Linked() && ManagerOk(View())
      modifies this`tickled
      ensures Linked() && (View(), wait) == TimerSet.GetNextTimer(old(View()), now)
    {
      tickled := false;
      assert Order() == old(Order()) && Recs() == old(Recs());
      if timers == [] { return None; }
      return Some(if now >= timers[0].next then 0 else timers[0].next - now);
    }

    /** The lower bound of a timer made only to be compared with. */
    method ProbeBound(now: nat, probe: nat) returns (it: nat)
      requires Linked() && Sorted(Order(), Recs())
      ensures it == TimerSet.LowerBound(Order(), Recs(), Timer(probe, 0, now, None, false)) && it <= |timers|
    {
      var nowTimer := new TimerObject(probe, 0, None, false, now);
      nowTimer.next := now;
      it := LowerBound(nowTimer);
    }

    /** The cut point of listExpiredCb. */
    method ExpiredEnd(rollover: bool, now: nat, probe: nat) returns (it: nat)
      requires Linked() && ManagerOk(View())
      ensures it == ExpiredCount(Order(), Recs(), rollover, now, probe)
      ensures it <= |timers|
    {
      if rollover {
        it := |timers|;
      } else {
        it := ProbeBound(now, probe);
      }
      ghost var from := it;
      while it < |timers| && timers[it].next == now
        invariant from <= it <= |timers|
        invariant SkipEqual(Order(), Recs(), now, from) == SkipEqual(Order(), Recs(), now, it)
      {
        it := it + 1;
      }
    }

    /** The loop over the expired timers, which are no longer in the set. */
    method RearmExpired(expired: seq<TimerObject>, now: nat) returns (cbs: seq<Option<nat>>)
      requires Linked() && Rearmable(Order(), Recs(), Addrs(expired))
      requires forall i :: 0 <= i < |expired| ==> expired[i].addr in all && all[expired[i].addr] == expired[i]
      modifies this`timers, expired
      ensures Linked() && all == old(all) && tickled == old(tickled) && previousTime == old(previousTime)
      ensures (Order(), Recs()) == RearmAll(old(Order()), old(Recs()), Addrs(expired), now)
      ensures |cbs| == |expired| && forall i :: 0 <= i < |cbs| ==> cbs[i] == old(expired[i].cb)
    {
      ghost var rest, recs, order := Order(), Recs(), Addrs(expired);
      assert order[..0] == [];
      cbs := [];
      var i := 0;
      while i < |expired|
        invariant 0 <= i <= |expired| && Linked() && all == old(all) && tickled == old(tickled)
                  && previousTime == old(previousTime)
        invariant Rearmable(rest, recs, order) && (Order(), Recs()) == RearmAll(rest, recs, order[..i], now)
        invariant |cbs| == i && forall j :: 0 <= j < i ==> cbs[j] == recs[order[j]].cb
      {
        var t := expired[i];
        RearmAllSnoc(rest, recs, order, i, now);
        assert t.Value() == Recs()[order[i]];
        cbs := cbs + [t.cb];
        RearmOne(t, now);
        i := i + 1;
      }
      assert order[..i] == order;
    }

    method RearmOne(t: TimerObject, now: nat)
      requires Linked() && Sorted(Order(), Recs()) && t.addr in all && all[t.addr] == t && t.addr !in Elems(Order())
      modifies this`timers, t
      ensures Linked() && all == old(all) && tickled == old(tickled) && previousTime == old(previousTime)
      ensures (Order(), Recs()) == Rearm(old(Order()), old(Recs()), t.addr, now)
    {
      if t.recurring {
        SetNext(t, U64(now + t.ms));
        InsertTimer(t);
      } else {
        DropCallback(t);
      }
    }

    method DropCallback(t: TimerObject)
      requires Linked() && t.addr in all && all[t.addr] == t
      modifies t`cb
      ensures Linked() && Order() == old(Order())
      ensures Recs() == old(Recs())[t.addr := old(Recs())[t.addr].(cb := None)]
    {
      t.cb := None;
      assert Recs() == old(Recs())[t.addr := t.Value()];
    }

    /** A deadline may change while its timer is out of the set. */
    method SetNext(t: TimerObject, next: nat)
      requires Linked() && Sorted(Order(), Recs()) && t.addr in all && all[t.addr] == t && t.addr !in Elems(Order())
      modifies t`next
      ensures Linked() && Order() == old(Order()) && Sorted(Order(), Recs())
      ensures Recs() == old(Recs())[t.addr := old(Recs())[t.addr].(next := next)]
    {
      t.next := next;
      assert Recs() == old(Recs())[t.addr := t.Value()];
      OrderFrame(Order(), old(Recs()), Recs());
    }

    method ListExpired(now: nat, probe: nat) returns (cbs: seq<Option<nat>>)
      requires Linked() && ManagerOk(View())
      modifies this`timers, this`previousTime, timers
      ensures Linked() && all == old(all)
      ensures (View(), cbs) == TimerSet.ListExpired(old(View()), now, probe)
    {
      cbs := [];
      if timers == [] { return; }
      var rollover := now < previousTime && now < U64(previousTime - HOUR_MS);
      previousTime := now;
      assert Order() == old(Order()) && Recs() == old(Recs());
      if !rollover && timers[0].next > now { return; }
      var k := ExpiredEnd(rollover, now, probe);
      ghost var m := View();
      assert m == old(View()).(previous := now);
      cbs := TakeExpired(k, now);
      assert View() == Cut(m, k, now);
    }

    method TakeExpired(k: nat, now: nat) returns (cbs: seq<Option<nat>>)
      requires Linked() && ManagerOk(View()) && k <= |timers|
      modifies this`timers, timers
      ensures Linked() && all == old(all) && tickled == old(tickled) && previousTime == old(previousTime)
      ensures (Order(), Recs()) == RearmAll(old(Order())[k..], old(Recs()), old(Order())[..k], now)
      ensures cbs == Callbacks(old(Order()), old(Recs()), k)
    {
      var expired := timers[..k];
      SplitAt(Order(), Recs(), k);
      assert Addrs(expired) == Order()[..k];
      ghost var order, recs := Order(), Recs();
      assert forall i :: 0 <= i < k ==> recs[order[i]].cb == expired[i].cb;
      assert Rearmable(order[k..], recs, order[..k]);
      timers := timers[k..];
      assert Order() == order[k..] && Recs() == recs;
      cbs := RearmExpired(expired, now);
      assert cbs == Callbacks(order, recs, k);
    }
  }

  ghost function Addrs(ts: seq<TimerObject>): (r: seq<nat>)
    ensures |r| == |ts| && forall i :: 0 <= i < |r| ==> r[i] == ts[i].addr
  {
    seq(|ts|, i requires 0 <= i < |ts| => ts[i].addr)
  }

  /** What the comparator finds has the same deadline and address, so it is the timer itself. */
  lemma FoundIsOwn(m: Manager, a: nat, k: nat)
    requires ManagerOk(m) && a in m.recs && Find(m.order, m.recs, m.recs[a]) == Some(k)
    ensures k < |m.order| && m.order[k] == a
  {}

  ghost function Refreshed(t: Timer, now: nat): Timer {
    t.(next := U64(now + t.ms))
  }

  lemma RefreshFound(m: Manager, a: nat, now: nat, k: nat)
    requires Known(m.order, m.recs) && a in m.recs && m.recs[a].addr == a && m.recs[a].cb.Some?
    requires Find(m.order, m.recs, m.recs[a]) == Some(k) && k < |m.order|
    ensures Refresh(m, a, now) == (Moved(m, k, Refreshed(m.recs[a], now)), true)
  {}

  lemma ResetFound(m: Manager, a: nat, ms: nat, fromNow: bool, now: nat, k: nat)
    requires Known(m.order, m.recs) && a in m.recs && m.recs[a].addr == a && m.recs[a].cb.Some?
    requires !(ms == m.recs[a].ms && !fromNow) && Find(m.order, m.recs, m.recs[a]) == Some(k) && k < |m.order|
    ensures var (m1, hook) := FrontHook(Moved(m, k, AfterReset(m.recs[a], ms, fromNow, now)), a);
            Reset(m, a, ms, fromNow, now) == (m1, true, hook)
  {}

  ghost function Cleared(recs: Timers, a: nat): (r: Timers)
    requires a in recs
    ensures r.Keys == recs.Keys
  {
    recs[a := recs[a].(cb := None)]
  }

  lemma CancelFound(m: Manager, a: nat, k: nat)
    requires Known(m.order, m.recs) && a in m.recs && m.recs[a].cb.Some? && k < |m.order|
    requires Find(m.order, Cleared(m.recs, a), Cleared(m.recs, a)[a]) == Some(k)
    ensures Cancel(m, a) == (m.(order := RemoveAt(m.order, k), recs := Cleared(m.recs, a)), Yes)
  {}

  /** Distinct timers outside a sorted rest. */
  ghost predicate Rearmable(rest: seq<nat>, recs: Timers, order: seq<nat>) {
    && Known(rest, recs) && Sorted(rest, recs) && AddrsOk(recs)
    && (forall j :: 0 <= j < |order| ==> order[j] in recs && order[j] !in Elems(rest))
    && (forall j, k :: 0 <= j < k < |order| ==> order[j] != order[k])
  }

  lemma RearmAllSnoc(rest: seq<nat>, recs: Timers, order: seq<nat>, i: nat, now: nat)
    requires Rearmable(rest, recs, order) && i < |order|
    ensures var (o, rs) := RearmAll(rest, recs, order[..i], now);
            && Sorted(o, rs) && order[i] !in Elems(o) && rs[order[i]] == recs[order[i]]
            && RearmAll(rest, recs, order[..i + 1], now) == Rearm(o, rs, order[i], now)
  {
    assert order[..i + 1][..i] == order[..i];
    RearmAllKeeps(rest, recs, order[..i], now);
    assert order[i] !in order[..i];
  }

  lemma CancelFinds(m: Manager, a: nat)
    requires ManagerOk(m) && a in m.recs && m.recs[a].cb.Some?
    ensures Find(m.order, Cleared(m.recs, a), Cleared(m.recs, a)[a]).Some?
  {
    CancelKeeps(m, a);
  }

  /** Elements before `mid` are less than it, elements after are greater. */
  lemma SortedAround(order: seq<nat>, recs: Timers, mid: nat, key: Timer)
    requires Known(order, recs) && Sorted(order, recs) && mid < |order|
    ensures Less(recs[order[mid]], key) ==> forall i :: 0 <= i <= mid ==> Less(recs[order[i]], key)
    ensures !Less(recs[order[mid]], key) ==> forall i :: mid <= i < |order| ==> !Less(recs[order[i]], key)
  {
    forall i, j | 0 <= i < j < |order| ensures Less(recs[order[i]], recs[order[j]]) {}
  }

  lemma LowerBoundIs(order: seq<nat>, recs: Timers, key: Timer, k: nat)
    requires Known(order, recs) && k <= |order|
    requires forall i :: 0 <= i < k ==> Less(recs[order[i]], key)
    requires k < |order| ==> !Less(recs[order[k]], key)
    ensures LowerBound(order, recs, key) == k
  {}

  lemma OrderFrameMoved(m: Manager, k: nat, t: Timer)
    requires ManagerOk(m) && k < |m.order| && m.order[k] == t.addr
    ensures Known(RemoveAt(m.order, k), m.recs[t.addr := t]) && Sorted(RemoveAt(m.order, k), m.recs[t.addr := t])
  {
    RemoveSorted(m.order, m.recs, k);
    SortedDistinct(m.order, m.recs);
    OrderFrame(RemoveAt(m.order, k), m.recs, m.recs[t.addr := t]);
  }

  lemma SplitAt(order: seq<nat>, recs: Timers, k: nat)
    requires Known(order, recs) && Sorted(order, recs) && k <= |order|
    ensures Known(order[k..], recs) && Sorted(order[k..], recs)
    ensures forall i, j :: 0 <= i < j < k ==> order[..k][i] != order[..k][j]
    ensures forall i :: 0 <= i < k ==> order[..k][i] in recs && order[..k][i] !in Elems(order[k..])
  {
    SortedDistinct(order, recs);
    var rest := order[k..];
    forall i, j | 0 <= i < j < |rest| ensures Less(recs[rest[i]], recs[rest[j]]) {
      assert Less(recs[order[k + i]], recs[order[k + j]]);
    }
  }
}
