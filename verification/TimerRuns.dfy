/** Runs of the timer manager: the order survives changing deadlines, and every timer has one fate. */
module TimerRuns {
  import opened Common
  import opened TimerSet

  // ---------------------------------------------------------------- the set stays a set

  predicate AddrsOk(recs: Timers) { forall a :: a in recs ==> recs[a].addr == a }

  /** Sorted although deadlines change, and a timer that still has a callback is in the set. */
  predicate ManagerOk(m: Manager) {
    && Known(m.order, m.recs) && Sorted(m.order, m.recs) && AddrsOk(m.recs)
    && forall a :: a in m.recs && m.recs[a].cb.Some? ==> a in Elems(m.order)
  }

  lemma FindOwn(m: Manager, a: nat, key: Timer)
    requires ManagerOk(m) && a in Elems(m.order) && key.addr == a && a in m.recs && key.next == m.recs[a].next
    ensures Find(m.order, m.recs, key).Some? && Find(m.order, m.recs, key).value < |m.order|
            && m.order[Find(m.order, m.recs, key).value] == a
  {
    var i :| 0 <= i < |m.order| && m.order[i] == a;
    FindMember(m.order, m.recs, i, key);
  }

  /** Taking a timer out, rewriting its fields and putting it back in its new place. */
  lemma Reposition(m: Manager, k: nat, t: Timer)
    requires ManagerOk(m) && k < |m.order| && t.addr == m.order[k]
    ensures ManagerOk(Moved(m, k, t)) && Elems(Moved(m, k, t).order) == Elems(m.order)
  {
    var recs := m.recs[t.addr := t];
    var rest := TakenFrom(m, k, t);
    InsertSorted(rest, recs, t.addr);
    InsertMembers(rest, recs, t.addr);
    assert Elems(m.order) - {t.addr} + {t.addr} == Elems(m.order);
  }

  /** The set without the timer at `k`, whose fields may then change. */
  lemma TakenFrom(m: Manager, k: nat, t: Timer) returns (rest: seq<nat>)
    requires ManagerOk(m) && k < |m.order| && t.addr == m.order[k]
    ensures rest == RemoveAt(m.order, k) && Elems(rest) == Elems(m.order) - {t.addr} && t.addr !in Elems(rest)
    ensures Known(rest, m.recs[t.addr := t]) && Sorted(rest, m.recs[t.addr := t])
  {
    rest := RemoveAt(m.order, k);
    SortedDistinct(m.order, m.recs);
    RemoveSorted(m.order, m.recs, k);
    RemoveElems(m.order, k);
    assert forall i :: 0 <= i < |rest| ==> rest[i] in Elems(rest);
    OrderFrame(rest, m.recs, m.recs[t.addr := t]);
  }

  lemma AddKeeps(m: Manager, a: nat, ms: nat, cb: Option<nat>, recurring: bool, now: nat)
    requires ManagerOk(m) && a !in m.recs
    ensures var (m', hook) := AddTimer(m, a, ms, cb, recurring, now);
            && ManagerOk(m') && Elems(m'.order) == Elems(m.order) + {a}
            && m'.recs == m.recs[a := Timer(a, ms, U64(now + ms), cb, recurring)]
            && (hook <==> !m.tickled && |m'.order| > 0 && m'.order[0] == a)
            && m'.tickled == (m.tickled || hook) && m'.previous == m.previous
  {
    var recs := m.recs[a := Timer(a, ms, U64(now + ms), cb, recurring)];
    OrderFrame(m.order, m.recs, recs);
    InsertSorted(m.order, recs, a);
    InsertMembers(m.order, recs, a);
  }

  /** The lookup of `cancel` always succeeds; it answers yes exactly when the callback is still there. */
  lemma CancelKeeps(m: Manager, a: nat)
    requires ManagerOk(m) && a in m.recs
    ensures var (m', reply) := Cancel(m, a);
            && ManagerOk(m') && reply == (if m.recs[a].cb.Some? then Yes else No)
            && (reply == Yes ==>
                  m'.recs == m.recs[a := m.recs[a].(cb := None)] && Elems(m'.order) == Elems(m.order) - {a})
            && (reply == No ==> m' == m)
  {
    if m.recs[a].cb.Some? {
      var recs := m.recs[a := m.recs[a].(cb := None)];
      OrderFrame(m.order, m.recs, recs);
      var m1 := m.(recs := recs);
      FindOwn(m1, a, recs[a]);
      var k := Find(m.order, recs, recs[a]).value;
      RemoveSorted(m.order, recs, k);
      SortedDistinct(m.order, recs);
      RemoveElems(m.order, k);
    }
  }

  lemma FindReturns(m: Manager, a: nat) returns (k: nat)
    requires ManagerOk(m) && a in m.recs && m.recs[a].cb.Some?
    ensures k < |m.order| && m.order[k] == a && Find(m.order, m.recs, m.recs[a]) == Some(k)
  {
    FindOwn(m, a, m.recs[a]);
    k := Find(m.order, m.recs, m.recs[a]).value;
  }

  lemma RefreshMoves(m: Manager, a: nat, now: nat) returns (k: nat)
    requires ManagerOk(m) && a in m.recs && m.recs[a].cb.Some?
    ensures k < |m.order| && m.order[k] == a
    ensures Refresh(m, a, now) == (Moved(m, k, m.recs[a].(next := U64(now + m.recs[a].ms))), true)
  {
    k := FindReturns(m, a);
  }

  /** The not-found branch of `refresh` is unreachable. */
  lemma RefreshKeeps(m: Manager, a: nat, now: nat)
    requires ManagerOk(m) && a in m.recs
    ensures var (m', done) := Refresh(m, a, now);
            && ManagerOk(m') && (done <==> m.recs[a].cb.Some?) && Elems(m'.order) == Elems(m.order)
            && m'.tickled == m.tickled
            && m'.recs == if done then m.recs[a := m.recs[a].(next := U64(now + m.recs[a].ms))] else m.recs
  {
    if m.recs[a].cb.Some? {
      var k := RefreshMoves(m, a, now);
      Reposition(m, k, m.recs[a].(next := U64(now + m.recs[a].ms)));
    }
  }

  lemma ResetMoves(m: Manager, a: nat, ms: nat, fromNow: bool, now: nat) returns (k: nat)
    requires ManagerOk(m) && a in m.recs && m.recs[a].cb.Some? && !(ms == m.recs[a].ms && !fromNow)
    ensures k < |m.order| && m.order[k] == a
    ensures var (m1, hook) := FrontHook(Moved(m, k, AfterReset(m.recs[a], ms, fromNow, now)), a);
            Reset(m, a, ms, fromNow, now) == (m1, true, hook)
  {
    k := FindReturns(m, a);
  }

  /** The not-found branch of `reset` is unreachable. */
  lemma ResetKeeps(m: Manager, a: nat, ms: nat, fromNow: bool, now: nat)
    requires ManagerOk(m) && a in m.recs
    ensures var (m', done, hook) := Reset(m, a, ms, fromNow, now);
            var changed := !(ms == m.recs[a].ms && !fromNow) && m.recs[a].cb.Some?;
            && ManagerOk(m') && (done <==> (ms == m.recs[a].ms && !fromNow) || m.recs[a].cb.Some?)
            && Elems(m'.order) == Elems(m.order)
            && m'.recs == (if changed then m.recs[a := AfterReset(m.recs[a], ms, fromNow, now)] else m.recs)
            && (hook <==> changed && !m.tickled && |m'.order| > 0 && m'.order[0] == a)
            && m'.tickled == (m.tickled || hook)
  {
    if !(ms == m.recs[a].ms && !fromNow) && m.recs[a].cb.Some? {
      var k := ResetMoves(m, a, ms, fromNow, now);
      Reposition(m, k, AfterReset(m.recs[a], ms, fromNow, now));
    }
  }

  // ---------------------------------------------------------------- expiry

  /** What an expired timer becomes. */
  function Expired(t: Timer, now: nat): Timer {
    if t.recurring then t.(next := U64(now + t.ms)) else t.(cb := None)
  }

  lemma {:induction false} RearmAllKeeps(order: seq<nat>, recs: Timers, expired: seq<nat>, now: nat)
    requires Known(order, recs) && Sorted(order, recs) && AddrsOk(recs)
    requires forall i :: 0 <= i < |expired| ==> expired[i] in recs && expired[i] !in Elems(order)
    requires forall i, j :: 0 <= i < j < |expired| ==> expired[i] != expired[j]
    ensures var (o, rs) := RearmAll(order, recs, expired, now);
            && Known(o, rs) && Sorted(o, rs) && AddrsOk(rs) && rs.Keys == recs.Keys
            && (forall a :: a in recs ==> rs[a] == if a in expired then Expired(recs[a], now) else recs[a])
            && Elems(o) == Elems(order) + (set a | a in expired && recs[a].recurring)
  {
    if expired != [] {
      var n := |expired| - 1;
      var a, init := expired[n], expired[..n];
      assert expired == init + [a] && a !in init;
      RearmAllKeeps(order, recs, init, now);
      var (o, rs) := RearmAll(order, recs, init, now);
      RearmKeeps(o, rs, a, now);
    }
  }

  lemma RearmKeeps(order: seq<nat>, recs: Timers, a: nat, now: nat)
    requires Known(order, recs) && Sorted(order, recs) && AddrsOk(recs) && a in recs && a !in Elems(order)
    ensures var (o, rs) := Rearm(order, recs, a, now);
            && Known(o, rs) && Sorted(o, rs) && AddrsOk(rs)
            && rs == recs[a := Expired(recs[a], now)]
            && Elems(o) == Elems(order) + if recs[a].recurring then {a} else {}
  {
    var recs1 := recs[a := Expired(recs[a], now)];
    OrderFrame(order, recs, recs1);
    if recs[a].recurring {
      InsertSorted(order, recs1, a);
      InsertMembers(order, recs1, a);
    }
  }

  /** The cut lies exactly after the deadlines that have passed, whatever the probe's address. */
  lemma CutIsExact(order: seq<nat>, recs: Timers, now: nat, probe: nat)
    requires Known(order, recs) && Sorted(order, recs)
    ensures var k := ExpiredCount(order, recs, false, now, probe);
            && (forall i :: 0 <= i < k ==> recs[order[i]].next <= now)
            && (forall i :: k <= i < |order| ==> recs[order[i]].next > now)
  {
    var k := ExpiredCount(order, recs, false, now, probe);
    if k < |order| {
      var b := LowerBound(order, recs, Timer(probe, 0, now, None, false));
      assert recs[order[k]].next > now by {
        if b < k { assert Less(recs[order[b]], recs[order[k]]); }
      }
      assert forall i :: k < i < |order| ==> Less(recs[order[k]], recs[order[i]]);
    }
  }

  // ---------------------------------------------------------------- how long to wait

  /** In a sorted set the front has the earliest deadline. */
  lemma FrontIsFirst(m: Manager, a: nat)
    requires ManagerOk(m) && a in Elems(m.order)
    ensures m.order != [] && m.recs[m.order[0]].next <= m.recs[a].next && m.order[0] in Elems(m.order)
  {
    var i :| 0 <= i < |m.order| && m.order[i] == a;
    if i > 0 { assert Less(m.recs[m.order[0]], m.recs[m.order[i]]); }
  }

  /** The time until a deadline. */
  function Until(deadline: nat, now: nat): nat { if deadline <= now then 0 else deadline - now }

  /** The wait is the shortest time until any deadline in the set, and endless exactly without timers. */
  lemma WaitIsShortest(m: Manager, now: nat)
    requires ManagerOk(m)
    ensures var wait := GetNextTimer(m, now).1;
            && (wait.None? <==> forall a :: a !in Elems(m.order))
            && (forall a :: a in Elems(m.order) ==> wait.Some? && wait.value <= Until(m.recs[a].next, now))
            && (wait.Some? ==> exists a :: a in Elems(m.order) && wait.value == Until(m.recs[a].next, now))
    ensures GetNextTimer(m, now).0 == m.(tickled := false)
  {
    forall a | a in Elems(m.order) ensures m.order != [] && m.recs[m.order[0]].next <= m.recs[a].next {
      FrontIsFirst(m, a);
    }
    if m.order != [] { assert m.order[0] in Elems(m.order); }
  }

  /** On a clock that does not go back, some timer expires at `later` if and only if that long was waited. */
  lemma WaitIsExact(m: Manager, now: nat, later: nat)
    requires ManagerOk(m) && m.previous <= now <= later
    ensures var wait := GetNextTimer(m, now).1;
            (exists a :: Expires(m, later, a)) <==> wait.Some? && later >= now + wait.value
  {
    WaitIsShortest(m, now);
    if m.order != [] {
      var first := m.order[0];
      assert first in Elems(m.order);
      assert Expires(m, later, first) <==> m.recs[first].next <= later;
      forall a | Expires(m, later, a) ensures m.recs[first].next <= later { FrontIsFirst(m, a); }
    }
  }

  /** A rollover is a step back by more than an hour; within the first hour of the clock, any step back. */
  lemma RolloverIff(previous: nat, now: nat)
    requires previous < TWO64
    ensures Rollover(previous, now) <==> if previous >= HOUR_MS then now + HOUR_MS < previous else now < previous
  {}

  /** `a` is taken out by `listExpiredCb`. */
  predicate Expires(m: Manager, now: nat, a: nat) {
    a in Elems(m.order) && a in m.recs && (Rollover(m.previous, now) || m.recs[a].next <= now)
  }

  /** How many timers at the front expire. */
  lemma ExpiredPrefix(m: Manager, now: nat, probe: nat) returns (k: nat)
    requires ManagerOk(m)
    ensures k <= |m.order|
    ensures forall i :: 0 <= i < |m.order| ==> (Expires(m, now, m.order[i]) <==> i < k)
    ensures ListExpired(m, now, probe).1 == Callbacks(m.order, m.recs, k)
    ensures m.order != [] && k > 0 ==> k == ExpiredCount(m.order, m.recs, Rollover(m.previous, now), now, probe)
    ensures m.order == [] ==> ListExpired(m, now, probe).0 == m
    ensures m.order != [] && k == 0 ==> ListExpired(m, now, probe).0 == m.(previous := now)
  {
    if m.order == [] {
      k := 0;
    } else if Rollover(m.previous, now) {
      k := |m.order|;
    } else if m.recs[m.order[0]].next > now {
      k := 0;
      assert forall i :: 0 < i < |m.order| ==> Less(m.recs[m.order[0]], m.recs[m.order[i]]);
    } else {
      CutIsExact(m.order, m.recs, now, probe);
      k := ExpiredCount(m.order, m.recs, false, now, probe);
    }
  }

  /**
   * listExpiredCb hands out exactly the callbacks whose deadline has passed (all of them after a
   * rollover), in deadline order, independently of the probe's address; afterwards the set is the
   * rest plus the recurring ones at now + period.
   */
  lemma ExpiryExact(m: Manager, now: nat, probe: nat) returns (k: nat)
    requires ManagerOk(m)
    ensures k <= |m.order|
    ensures forall i :: 0 <= i < |m.order| ==> (Expires(m, now, m.order[i]) <==> i < k)
    ensures var (m', cbs) := ListExpired(m, now, probe);
            && cbs == Callbacks(m.order, m.recs, k) && m'.previous == (if m.order == [] then m.previous else now)
            && ManagerOk(m') && m'.recs.Keys == m.recs.Keys && m'.tickled == m.tickled
            && (forall a :: a in m.recs ==>
                  m'.recs[a] == if Expires(m, now, a) then Expired(m.recs[a], now) else m.recs[a])
            && (forall a :: a in Elems(m'.order) <==>
                  a in Elems(m.order) && (!Expires(m, now, a) || m.recs[a].recurring))
  {
    k := ExpiredPrefix(m, now, probe);
    if k > 0 {
      ExpirePrefix(m, now, probe, k);
    }
  }

  /** An expired recurring timer is back in the set, one period from now; a one-shot is out and has no callback. */
  lemma AfterExpiry(m: Manager, now: nat, probe: nat, a: nat)
    requires ManagerOk(m) && Expires(m, now, a)
    ensures var m' := ListExpired(m, now, probe).0;
            && a in m'.recs && (a in Elems(m'.order) <==> m.recs[a].recurring)
            && m'.recs[a] == if m.recs[a].recurring then m.recs[a].(next := U64(now + m.recs[a].ms))
                             else m.recs[a].(cb := None)
  {
    var _ := ExpiryExact(m, now, probe);
  }

  lemma ExpirePrefix(m: Manager, now: nat, probe: nat, k: nat)
    requires ManagerOk(m) && 0 < k <= |m.order|
             && k == ExpiredCount(m.order, m.recs, Rollover(m.previous, now), now, probe)
    requires forall i :: 0 <= i < |m.order| ==> (Expires(m, now, m.order[i]) <==> i < k)
    ensures var m' := ListExpired(m, now, probe).0;
            && ManagerOk(m') && m'.recs.Keys == m.recs.Keys && m'.tickled == m.tickled && m'.previous == now
            && (forall a :: a in m.recs ==>
                  m'.recs[a] == if Expires(m, now, a) then Expired(m.recs[a], now) else m.recs[a])
            && (forall a :: a in Elems(m'.order) <==>
                  a in Elems(m.order) && (!Expires(m, now, a) || m.recs[a].recurring))
  {
    var expired, rest := m.order[..k], m.order[k..];
    ExpiredElems(m, now, k);
    RearmAllKeeps(rest, m.recs, expired, now);
    assert Expires(m, now, m.order[0]);
    assert ListExpired(m, now, probe).0 == Cut(m, k, now);
  }

  lemma ExpiredElems(m: Manager, now: nat, k: nat)
    requires ManagerOk(m) && k <= |m.order|
    requires forall i :: 0 <= i < |m.order| ==> (Expires(m, now, m.order[i]) <==> i < k)
    ensures forall a :: Expires(m, now, a) <==> a in m.order[..k]
    ensures Elems(m.order) == Elems(m.order[..k]) + Elems(m.order[k..])
    ensures forall i, j :: 0 <= i < j < k ==> m.order[..k][i] != m.order[..k][j]
    ensures forall i :: 0 <= i < k ==> m.order[..k][i] in m.recs && m.order[..k][i] !in Elems(m.order[k..])
    ensures Known(m.order[k..], m.recs) && Sorted(m.order[k..], m.recs)
  {
    SortedDistinct(m.order, m.recs);
    assert m.order == m.order[..k] + m.order[k..];
    forall a ensures Expires(m, now, a) <==> a in m.order[..k] {
      if a in Elems(m.order) {
        var i :| 0 <= i < |m.order| && m.order[i] == a;
        assert i < k ==> m.order[..k][i] == a;
      }
    }
    var rest := m.order[k..];
    forall i, j | 0 <= i < j < |rest| ensures Less(m.recs[rest[i]], m.recs[rest[j]]) {
      assert Less(m.recs[m.order[k + i]], m.recs[m.order[k + j]]);
    }
  }

  lemma ProbeIrrelevant(m: Manager, now: nat, p: nat, q: nat)
    requires ManagerOk(m)
    ensures ListExpired(m, now, p) == ListExpired(m, now, q)
  {
    var k := ExpiredPrefix(m, now, p);
    var k' := ExpiredPrefix(m, now, q);
    assert k == k' by {
      assert k < |m.order| ==> (Expires(m, now, m.order[k]) <==> k < k');
      assert k' < |m.order| ==> (Expires(m, now, m.order[k']) <==> k' < k);
    }
  }
}
