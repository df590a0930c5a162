/**
 * Sleeping fibers beside the blocking calls. A sleep adds a one-shot timer whose callback schedules the
 * fiber, and yields. The callback goes a long way: out of the timer set, into the scheduler's queue, onto
 * a worker; that it finds its fiber parked when it gets there is proved, not assumed.
 */
module SleepSchedule {
  import opened Common
  import opened TimerSet
  import opened TimerRuns
  import T = TimerWorld
  import HX = HookRace
  import HS = HookSchedule
  import S = SchedulerMachine
  import SS = SchedulerSafety
  import SR = SchedulerRuns

  /**
   * `sleeper[t]` is the fiber that timer `t` is to wake and `woken` counts the calls its callback has
   * made; `collected` are callbacks taken out of the timer set and not scheduled yet. Callbacks are
   * named after their timers.
   */
  datatype State = State(timers: T.World, joint: HS.Joint, sleeper: map<nat, S.FiberId>,
                         collected: multiset<nat>, woken: multiset<nat>)

  datatype Action =
    | Sleep(w: nat, t: nat, ms: nat, now: nat)
    | UseTimers(a: T.Action)                 // any other timer
    | Collect(w: nat, now: nat, probe: nat)  // `listExpiredCb` on an idle worker
    | Hand(w: nat, c: nat)                   // and the schedule of a callback it gave
    | Wake(w: nat, t: nat)                   // the callback of a sleep runs
    | Other(x: HS.Action)                    // blocking calls and the worker loop

  function Callback(t: nat): S.Item { S.Item(S.RunCallback(t), -1) }

  function Scheduled(s: S.State, t: nat): nat { multiset(s.scheduled)[Callback(t)] }
  function Queued(s: S.State, t: nat): nat { multiset(s.queue)[Callback(t)] }
  function Taken(s: S.State, t: nat): nat { multiset(s.taken)[Callback(t)] }

  /** The callbacks in a list; a null one is not scheduled. */
  function Names(cbs: seq<Option<nat>>): multiset<nat> {
    if cbs == [] then multiset{}
    else (if cbs[0].Some? then multiset{cbs[0].value} else multiset{}) + Names(cbs[1..])
  }

  predicate Asleep(s: State, f: S.FiberId) {
    exists t :: t in s.sleeper && s.sleeper[t] == f && s.woken[t] == 0
  }

  /** The timer and its callback are new objects. */
  predicate New(s: State, t: nat) {
    t !in s.timers.m.recs && s.collected[t] == 0 && Callback(t) !in s.joint.sched.scheduled
  }

  predicate IdleOn(s: S.State, w: nat) { w < |s.workers| && s.workers[w].pc.Empty? && !s.workers[w].idleTerm }
  predicate RunsCallback(s: S.State, w: nat) { w < |s.workers| && s.workers[w].pc.Running? && s.workers[w].pc.cb }

  /** Nobody else has a handle of a sleeping fiber, or the callback that will wake it. */
  predicate LeavesSleepers(s: State, b: S.Action) {
    b.Schedule? ==>
      match b.item.work
      case RunFiber(f) => !Asleep(s, f)
      case RunCallback(c) => c !in s.sleeper
  }

  /**
   * Program order, and that the timer `addTimer` returned is dropped: nobody cancels it. A callback makes
   * its one call each time a worker has taken it. That the call finds the fiber parked is not assumed.
   */
  ghost predicate Enabled(s: State, a: Action) {
    match a
    case Sleep(w, t, _, _) =>
      && S.Enabled(s.joint.sched, S.Park(w)) && !HS.Busy(s.joint, s.joint.sched.workers[w].pc.fiber)
      && Known(s.timers.m.order, s.timers.m.recs) && New(s, t)
    case UseTimers(b) =>
      && T.Enabled(s.timers, b) && !b.Expire?
      && (b.Add? ==> b.cb.None? || b.cb == Some(b.a))
      && (b.CancelTimer? ==> b.a !in s.sleeper)
    case Collect(w, _, _) => IdleOn(s.joint.sched, w) && Known(s.timers.m.order, s.timers.m.recs)
    case Hand(w, c) => IdleOn(s.joint.sched, w) && s.collected[c] > 0
    case Wake(w, t) => RunsCallback(s.joint.sched, w) && t in s.sleeper && s.woken[t] < Taken(s.joint.sched, t)
    case Other(x) => HS.Enabled(s.joint, x) && (x.SchedStep? ==> LeavesSleepers(s, x.b))
  }

  function OnSched(s: State, sched: S.State): State { s.(joint := s.joint.(sched := sched)) }

  ghost function Apply(s: State, a: Action): State
    requires Enabled(s, a)
  {
    match a
    case Sleep(w, t, ms, now) =>
      OnSched(s, S.Apply(s.joint.sched, S.Park(w))).(
        timers := T.Apply(s.timers, T.Add(t, ms, Some(t), false, now)),
        sleeper := s.sleeper[t := s.joint.sched.workers[w].pc.fiber])
    case UseTimers(b) => s.(timers := T.Apply(s.timers, b))
    case Collect(_, now, probe) =>
      s.(timers := T.Apply(s.timers, T.Expire(now, probe)),
         collected := s.collected + Names(ListExpired(s.timers.m, now, probe).1))
    case Hand(_, c) => OnSched(s, S.DoSchedule(s.joint.sched, Callback(c))).(collected := s.collected - multiset{c})
    case Wake(_, t) =>
      OnSched(s, S.DoSchedule(s.joint.sched, HS.Wakeup(s.sleeper[t]))).(woken := s.woken + multiset{t})
    case Other(x) => s.(joint := HS.Apply(s.joint, x))
  }

  // ---------------------------------------------------------------- the invariant

  ghost predicate NamesOk(m: Manager) {
    forall t :: t in m.recs && m.recs[t].cb.Some? ==> m.recs[t].cb == Some(t)
  }

  /** The timer of a sleep was never cancelled, and its callback is somewhere on its way, once. */
  ghost predicate OnItsWay(w: T.World, sched: S.State, collected: multiset<nat>, woken: multiset<nat>, t: nat) {
    && t in w.m.recs && !w.m.recs[t].recurring && t in w.armed && w.cancelled[t] == 0
    && w.fired[t] == collected[t] + Scheduled(sched, t) && woken[t] <= Taken(sched, t)
  }

  /** Until it has been woken a sleeper is parked and in no blocking call. */
  ghost predicate SleeperOk(s: State, t: nat)
    requires t in s.sleeper
  {
    && OnItsWay(s.timers, s.joint.sched, s.collected, s.woken, t)
    && (s.woken[t] == 0 ==> s.sleeper[t] in s.joint.sched.parked && !HS.Busy(s.joint, s.sleeper[t]))
  }

  ghost predicate Inv(s: State) {
    && T.Inv(s.timers) && NamesOk(s.timers.m) && HS.Inv(s.joint) && SR.Conserved(s.joint.sched)
    && (forall t :: t in s.sleeper ==> SleeperOk(s, t))
    && (forall t :: t in s.woken ==> t in s.sleeper)
    && OneSleepEach(s)
  }

  ghost predicate OneSleepEach(s: State) {
    forall t, u ::
      t in s.sleeper && u in s.sleeper && s.woken[t] == 0 && s.woken[u] == 0 && s.sleeper[t] == s.sleeper[u] ==> t == u
  }

  // ---------------------------------------------------------------- the way of a callback

  /** The callback of `t` is scheduled no more often, and stays taken. */
  ghost predicate SameTickets(s: S.State, s': S.State, t: nat) {
    Scheduled(s', t) == Scheduled(s, t) && Taken(s', t) >= Taken(s, t)
  }

  lemma TicketsKept(s: S.State, b: S.Action, t: nat)
    requires S.Enabled(s, b) && !(b.Schedule? && b.item.work == S.RunCallback(t))
    ensures SameTickets(s, S.Apply(s, b), t)
  {
    match b
    case Take(_) =>
    case Schedule(_, _) =>
    case Reschedule(_) =>
    case _ => SR.QueueUntouched(s, b);
  }

  /** The callback of a sleep is in one place: with the timer, collected, queued, or taken by a worker. */
  lemma OneTicket(s: State, t: nat)
    requires Inv(s) && t in s.sleeper
    ensures T.Pending(s.timers.m, t) + s.collected[t] + Queued(s.joint.sched, t) + Taken(s.joint.sched, t) == 1
    ensures s.woken[t] <= Taken(s.joint.sched, t)
  {
    assert SleeperOk(s, t);
    assert T.LifeOk(s.timers.m, s.timers.fired, s.timers.cancelled, t);
  }

  lemma {:induction false} NamesCount(order: seq<nat>, cbs: seq<Option<nat>>, t: nat)
    requires |cbs| == |order| && forall i :: 0 <= i < |order| ==> (cbs[i] == Some(t) <==> order[i] == t)
    ensures Names(cbs)[t] == multiset(order)[t]
  {
    if cbs != [] {
      NamesCount(order[1..], cbs[1..], t);
      assert order == [order[0]] + order[1..];
    }
  }

  /** What is collected from the timer set counts the timers it took out. */
  lemma CollectedCount(w: T.World, now: nat, probe: nat, t: nat)
    requires T.Inv(w) && NamesOk(w.m) && t in w.armed
    ensures Names(ListExpired(w.m, now, probe).1)[t] == T.Apply(w, T.Expire(now, probe)).fired[t] - w.fired[t]
  {
    TakenCount(w, now, probe, t);
  }

  lemma TakenCount(w: T.World, now: nat, probe: nat, t: nat)
    requires T.Inv(w) && NamesOk(w.m) && t in w.armed
    ensures var cbs := ListExpired(w.m, now, probe).1;
            Names(cbs)[t] == T.TakenOut(w.m, |cbs|)[t]
  {
    var k := ExpiryExact(w.m, now, probe);
    NamesMatch(w, k, t);
  }

  lemma NamesMatch(w: T.World, k: nat, t: nat)
    requires T.Inv(w) && NamesOk(w.m) && t in w.armed && k <= |w.m.order|
    ensures Names(Callbacks(w.m.order, w.m.recs, k))[t] == multiset(w.m.order[..k])[t]
  {
    forall i | 0 <= i < k ensures w.m.order[i] in w.m.recs && w.m.order[i] in Elems(w.m.order) {}
    NamesCount(w.m.order[..k], Callbacks(w.m.order, w.m.recs, k), t);
  }

  /** The timer of a sleep is taken out exactly when its deadline has passed, or all are. */
  lemma CollectedWhenDue(s: State, w: nat, now: nat, probe: nat, t: nat)
    requires Inv(s) && Enabled(s, Collect(w, now, probe)) && t in s.sleeper
    ensures Apply(s, Collect(w, now, probe)).collected[t] ==
              s.collected[t] + if Expires(s.timers.m, now, t) then 1 else 0
  {
    assert SleeperOk(s, t);
    CollectedCount(s.timers, now, probe, t);
    T.FiredWhenDue(s.timers, now, probe, t);
  }

  // ---------------------------------------------------------------- timers

  /** Other uses of the timer manager leave the timer of a sleep alone but for its deadline. */
  lemma TimerKept(w: T.World, b: T.Action, t: nat)
    requires T.Inv(w) && T.Enabled(w, b) && t in w.m.recs && t in w.armed && b != T.CancelTimer(t)
    ensures var w' := T.Apply(w, b);
            && t in w'.m.recs && w'.m.recs[t].recurring == w.m.recs[t].recurring && t in w'.armed
            && w'.cancelled[t] == w.cancelled[t] && (!b.Expire? ==> w'.fired[t] == w.fired[t])
  {
    T.StepKeepsTimers(w, b, t);
  }

  lemma NamesKept(w: T.World, b: T.Action)
    requires T.Inv(w) && NamesOk(w.m) && T.Enabled(w, b) && (b.Add? ==> b.cb.None? || b.cb == Some(b.a))
    ensures NamesOk(T.Apply(w, b).m)
  {
    match b
    case Add(x, ms, cb, recurring, now) => AddKeeps(w.m, x, ms, cb, recurring, now);
    case CancelTimer(x) => CancelKeeps(w.m, x);
    case RefreshTimer(x, now) => RefreshKeeps(w.m, x, now);
    case ResetTimer(x, ms, fromNow, now) => ResetKeeps(w.m, x, ms, fromNow, now);
    case Expire(now, probe) => var _ := ExpiryExact(w.m, now, probe);
    case _ =>
  }

  lemma UseTimersKeeps(s: State, b: T.Action)
    requires Inv(s) && Enabled(s, UseTimers(b))
    ensures Inv(Apply(s, UseTimers(b)))
  {
    T.InvStep(s.timers, b);
    NamesKept(s.timers, b);
    var s' := Apply(s, UseTimers(b));
    forall t | t in s'.sleeper ensures SleeperOk(s', t) {
      assert SleeperOk(s, t);
      TimerKept(s.timers, b, t);
    }
  }

  lemma CollectKeeps(s: State, w: nat, now: nat, probe: nat)
    requires Inv(s) && Enabled(s, Collect(w, now, probe))
    ensures Inv(Apply(s, Collect(w, now, probe)))
  {
    var b := T.Expire(now, probe);
    T.InvStep(s.timers, b);
    NamesKept(s.timers, b);
    var s' := Apply(s, Collect(w, now, probe));
    forall t | t in s'.sleeper ensures SleeperOk(s', t) {
      assert SleeperOk(s, t);
      TimerKept(s.timers, b, t);
      CollectedCount(s.timers, now, probe, t);
    }
  }

  // ---------------------------------------------------------------- the scheduler

  /** A schedule leaves the blocking calls in order unless it takes away the handle of a waiting one. */
  lemma ScheduleJoint(j: HS.Joint, it: S.Item)
    requires HS.Inv(j) && SR.Conserved(j.sched) && S.Enabled(j.sched, S.Schedule(None, it))
    requires it.work.RunFiber? ==> !HS.Busy(j, it.work.fiber)
    ensures HS.Inv(j.(sched := S.DoSchedule(j.sched, it))) && SR.Conserved(S.DoSchedule(j.sched, it))
  {
    HS.SchedKeeps(j, S.Schedule(None, it));
    SR.ConservedStep(j.sched, S.Schedule(None, it));
  }

  /** What a schedule does to the parked fibers and to the callback of `t`. */
  lemma ScheduleEffect(s: S.State, it: S.Item, t: nat)
    ensures var s' := S.DoSchedule(s, it);
            && Scheduled(s', t) == Scheduled(s, t) + (if it == Callback(t) then 1 else 0) && Taken(s', t) == Taken(s, t)
            && s'.parked == if it.work.RunFiber? then s.parked - {it.work.fiber} else s.parked
  {}

  /** A sleeper's callback moved on to the queue or not, and it is parked as before or has been woken. */
  lemma SleeperKept(s: State, s': State, t: nat)
    requires t in s.sleeper && t in s'.sleeper && s'.sleeper[t] == s.sleeper[t] && SleeperOk(s, t)
    requires s'.timers == s.timers && s'.joint.hook == s.joint.hook && s'.joint.fiberOf == s.joint.fiberOf
    requires s'.collected[t] + Scheduled(s'.joint.sched, t) == s.collected[t] + Scheduled(s.joint.sched, t)
    requires Taken(s'.joint.sched, t) >= Taken(s.joint.sched, t)
    requires s'.woken[t] == s.woken[t] || 0 < s'.woken[t] <= Taken(s'.joint.sched, t)
    requires s'.woken[t] == 0 && s.sleeper[t] in s.joint.sched.parked ==> s.sleeper[t] in s'.joint.sched.parked
    ensures SleeperOk(s', t)
  {
    SameBusy(s, s', s.sleeper[t]);
  }

  lemma HandKeeps(s: State, w: nat, c: nat)
    requires Inv(s) && Enabled(s, Hand(w, c))
    ensures Inv(Apply(s, Hand(w, c)))
  {
    var s' := Apply(s, Hand(w, c));
    ScheduleJoint(s.joint, Callback(c));
    HandSleepers(s, s', c);
  }

  lemma HandSleepers(s: State, s': State, c: nat)
    requires s.collected[c] > 0
             && s' == OnSched(s, S.DoSchedule(s.joint.sched, Callback(c))).(collected := s.collected - multiset{c})
    requires forall t :: t in s.sleeper ==> SleeperOk(s, t)
    ensures forall t :: t in s'.sleeper ==> SleeperOk(s', t)
  {
    forall t | t in s'.sleeper ensures SleeperOk(s', t) {
      ScheduleEffect(s.joint.sched, Callback(c), t);
      SleeperKept(s, s', t);
    }
  }

  lemma SameBusy(s: State, s': State, f: S.FiberId)
    requires s'.joint.hook == s.joint.hook && s'.joint.fiberOf == s.joint.fiberOf
    ensures HS.Busy(s'.joint, f) == HS.Busy(s.joint, f)
  {}

  /** The callback of a sleep finds its fiber parked: its schedule is one the worker loop relies on. */
  lemma WakesAreSchedules(s: State, w: nat, t: nat)
    requires Inv(s) && Enabled(s, Wake(w, t))
    ensures S.Enabled(s.joint.sched, S.Schedule(Some(w), HS.Wakeup(s.sleeper[t])))
    ensures s.woken[t] == 0 && s.sleeper[t] in s.joint.sched.parked && !HS.Busy(s.joint, s.sleeper[t])
  {
    assert SleeperOk(s, t);
    OneTicket(s, t);
  }

  lemma WakeKeeps(s: State, w: nat, t: nat)
    requires Inv(s) && Enabled(s, Wake(w, t))
    ensures Inv(Apply(s, Wake(w, t)))
  {
    var s' := Apply(s, Wake(w, t));
    WakeJoint(s, w, t);
    WakeSleepers(s, s', t);
    Rejoined(s, s');
  }

  /** Without a change of the timers it is the sleepers and the rest that count. */
  lemma Rejoined(s: State, s': State)
    requires Inv(s) && s'.timers == s.timers && HS.Inv(s'.joint) && SR.Conserved(s'.joint.sched)
    requires (forall t :: t in s'.sleeper ==> SleeperOk(s', t)) && OneSleepEach(s')
    requires forall t :: t in s'.woken ==> t in s'.sleeper
    ensures Inv(s')
  {}

  lemma WakeJoint(s: State, w: nat, t: nat)
    requires Inv(s) && Enabled(s, Wake(w, t))
    ensures var sched := S.DoSchedule(s.joint.sched, HS.Wakeup(s.sleeper[t]));
            HS.Inv(s.joint.(sched := sched)) && SR.Conserved(sched)
    ensures s.woken[t] == 0 < Taken(s.joint.sched, t)
  {
    WakesAreSchedules(s, w, t);
    ScheduleJoint(s.joint, HS.Wakeup(s.sleeper[t]));
  }

  lemma WakeSleepers(s: State, s': State, t: nat)
    requires t in s.sleeper && s.woken[t] == 0 && Taken(s.joint.sched, t) > 0 && OneSleepEach(s)
    requires s' == OnSched(s, S.DoSchedule(s.joint.sched, HS.Wakeup(s.sleeper[t]))).(woken := s.woken + multiset{t})
    requires (forall u :: u in s.sleeper ==> SleeperOk(s, u)) && forall u :: u in s.woken ==> u in s.sleeper
    ensures OneSleepEach(s') && (forall u :: u in s'.sleeper ==> SleeperOk(s', u))
    ensures forall u :: u in s'.woken ==> u in s'.sleeper
  {
    forall u | u in s'.sleeper ensures SleeperOk(s', u) {
      ScheduleEffect(s.joint.sched, HS.Wakeup(s.sleeper[t]), u);
      SleeperKept(s, s', u);
    }
  }

  lemma SleepKeeps(s: State, w: nat, t: nat, ms: nat, now: nat)
    requires Inv(s) && Enabled(s, Sleep(w, t, ms, now))
    ensures Inv(Apply(s, Sleep(w, t, ms, now)))
  {
    var b := T.Add(t, ms, Some(t), false, now);
    var s' := Apply(s, Sleep(w, t, ms, now));
    T.InvStep(s.timers, b);
    NamesKept(s.timers, b);
    ParkJoint(s.joint, w);
    NotAsleep(s, w);
    ParkEffect(s, s', w, b);
    SleepersAdded(s, s', s.joint.sched.workers[w].pc.fiber, b);
  }

  /** What a sleep leaves as it was, and what it adds. */
  ghost predicate FellAsleep(s: State, s': State, f: S.FiberId, b: T.Action) {
    && b.Add? && b.cb.Some? && !b.recurring && T.Enabled(s.timers, b) && New(s, b.a)
    && s'.timers == T.Apply(s.timers, b)
    && s'.sleeper == s.sleeper[b.a := f] && s'.collected == s.collected && s'.woken == s.woken
    && s'.joint.hook == s.joint.hook && s'.joint.fiberOf == s.joint.fiberOf
    && s'.joint.sched.parked == s.joint.sched.parked + {f} && !HS.Busy(s.joint, f) && !Asleep(s, f)
    && forall t :: SameTickets(s.joint.sched, s'.joint.sched, t)
  }

  lemma ParkEffect(s: State, s': State, w: nat, b: T.Action)
    requires b.Add? && b.cb.Some? && !b.recurring && T.Enabled(s.timers, b) && New(s, b.a)
    requires S.Enabled(s.joint.sched, S.Park(w)) && !HS.Busy(s.joint, s.joint.sched.workers[w].pc.fiber)
    requires !Asleep(s, s.joint.sched.workers[w].pc.fiber)
    requires s' == OnSched(s, S.Apply(s.joint.sched, S.Park(w))).(
                     timers := T.Apply(s.timers, b), sleeper := s.sleeper[b.a := s.joint.sched.workers[w].pc.fiber])
    ensures FellAsleep(s, s', s.joint.sched.workers[w].pc.fiber, b)
  {
    forall t ensures SameTickets(s.joint.sched, s'.joint.sched, t) { TicketsKept(s.joint.sched, S.Park(w), t); }
  }

  lemma SleepersAdded(s: State, s': State, f: S.FiberId, b: T.Action)
    requires T.Inv(s.timers) && (forall u :: u in s.sleeper ==> SleeperOk(s, u))
    requires (forall u :: u in s.woken ==> u in s.sleeper) && OneSleepEach(s) && FellAsleep(s, s', f, b)
    ensures (forall u :: u in s'.sleeper ==> SleeperOk(s', u)) && OneSleepEach(s')
  {
    forall u | u in s.sleeper ensures u != b.a { assert SleeperOk(s, u); }
    forall u | u in s'.sleeper ensures SleeperOk(s', u) {
      if u == b.a { NewSleeper(s, s', f, b); } else { OldSleeper(s, s', b, u); }
    }
    OneMore(s, s', f, b.a);
  }

  lemma OneMore(s: State, s': State, f: S.FiberId, t: nat)
    requires OneSleepEach(s) && !Asleep(s, f) && t !in s.sleeper
    requires s'.sleeper == s.sleeper[t := f] && s'.woken == s.woken
    ensures OneSleepEach(s')
  {}

  lemma NewSleeper(s: State, s': State, f: S.FiberId, b: T.Action)
    requires T.Inv(s.timers) && FellAsleep(s, s', f, b) && s.woken[b.a] == 0
    ensures SleeperOk(s', b.a)
  {
    SameBusy(s, s', f);
    assert SameTickets(s.joint.sched, s'.joint.sched, b.a);
    NewOnItsWay(s.timers, b, s'.joint.sched, s.collected, s.woken);
  }

  lemma OldSleeper(s: State, s': State, b: T.Action, u: nat)
    requires T.Inv(s.timers) && b.Add? && T.Enabled(s.timers, b) && s'.timers == T.Apply(s.timers, b)
    requires u in s.sleeper && u in s'.sleeper && s'.sleeper[u] == s.sleeper[u] && SleeperOk(s, u)
    requires SameTickets(s.joint.sched, s'.joint.sched, u) && s'.collected == s.collected && s'.woken == s.woken
    requires s.joint.sched.parked <= s'.joint.sched.parked
    requires s'.joint.hook == s.joint.hook && s'.joint.fiberOf == s.joint.fiberOf
    ensures SleeperOk(s', u)
  {
    TimerKept(s.timers, b, u);
    SameBusy(s, s', s.sleeper[u]);
  }

  lemma NewOnItsWay(w: T.World, b: T.Action, sched: S.State, collected: multiset<nat>, woken: multiset<nat>)
    requires T.Inv(w) && b.Add? && b.cb.Some? && !b.recurring && T.Enabled(w, b)
    requires collected[b.a] == Scheduled(sched, b.a) == woken[b.a] == 0
    ensures OnItsWay(T.Apply(w, b), sched, collected, woken, b.a)
  {
    AddKeeps(w.m, b.a, b.ms, b.cb, b.recurring, b.now);
    assert T.LifeOk(w.m, w.fired, w.cancelled, b.a);
  }

  lemma ParkJoint(j: HS.Joint, w: nat)
    requires HS.Inv(j) && SR.Conserved(j.sched) && S.Enabled(j.sched, S.Park(w))
             && !HS.Busy(j, j.sched.workers[w].pc.fiber)
    ensures HS.Inv(j.(sched := S.Apply(j.sched, S.Park(w)))) && SR.Conserved(S.Apply(j.sched, S.Park(w)))
  {
    HS.SchedKeeps(j, S.Park(w));
    SR.ConservedStep(j.sched, S.Park(w));
  }

  /** A fiber that runs and has its handle is not asleep. */
  lemma NotAsleep(s: State, w: nat)
    requires Inv(s) && S.Enabled(s.joint.sched, S.Park(w))
    ensures !Asleep(s, s.joint.sched.workers[w].pc.fiber)
    ensures s.joint.sched.workers[w].pc.fiber !in s.joint.sched.parked
  {
    var sched := s.joint.sched;
    var f := sched.workers[w].pc.fiber;
    assert forall g :: g in sched.parked ==> SS.Compatible(sched.workers[w], g, sched.fibers);
    forall t | t in s.sleeper && s.woken[t] == 0 ensures s.sleeper[t] != f { assert SleeperOk(s, t); }
  }

  // ---------------------------------------------------------------- blocking calls and the worker loop

  /** Waking fibers schedules no callback and takes nothing from the queue. */
  lemma {:induction false} ScheduleAllTickets(s: S.State, fs: seq<S.FiberId>, t: nat)
    ensures SameTickets(s, HS.ScheduleAll(s, fs), t)
    decreases |fs|
  {
    if fs != [] {
      ScheduleEffect(s, HS.Wakeup(fs[0]), t);
      ScheduleAllTickets(S.DoSchedule(s, HS.Wakeup(fs[0])), fs[1..], t);
    }
  }

  lemma JointConserved(j: HS.Joint, x: HS.Action)
    requires HS.Enabled(j, x) && SR.Conserved(j.sched)
    ensures SR.Conserved(HS.Apply(j, x).sched)
  {
    match x
    case CallStep(w, a) => SR.ConservedStep(j.sched, S.Park(w));
    case WakeStep(a) => ScheduleAllConserves(j.sched, HS.Fibers(j, HS.WokenCalls(j.hook, a)));
    case SchedStep(b) => SR.ConservedStep(j.sched, b);
    case _ =>
  }

  lemma {:induction false} ScheduleAllConserves(s: S.State, fs: seq<S.FiberId>)
    requires SR.Conserved(s)
    ensures SR.Conserved(HS.ScheduleAll(s, fs))
    decreases |fs|
  {
    if fs != [] {
      SR.PushConserves(s, HS.Wakeup(fs[0]));
      ScheduleAllConserves(S.DoSchedule(s, HS.Wakeup(fs[0])), fs[1..]);
    }
  }

  lemma JointTickets(j: HS.Joint, x: HS.Action, t: nat)
    requires HS.Enabled(j, x) && !(x.SchedStep? && x.b.Schedule? && x.b.item.work == S.RunCallback(t))
    ensures SameTickets(j.sched, HS.Apply(j, x).sched, t)
  {
    match x
    case CallStep(w, a) => TicketsKept(j.sched, S.Park(w), t);
    case WakeStep(a) => ScheduleAllTickets(j.sched, HS.Fibers(j, HS.WokenCalls(j.hook, a)), t);
    case SchedStep(b) => TicketsKept(j.sched, b, t);
    case _ =>
  }

  /** Calls that are not active do not become so, but for the one that begins. */
  lemma ActiveBefore(s: HX.State, a: HX.Action, c: nat)
    requires HX.Inv(s) && HX.Enabled(s, a) && !HS.IsBegin(a)
    ensures |HX.Apply(s, a).calls| == |s.calls|
    ensures c < |s.calls| && HS.Active(HX.Apply(s, a).calls[c]) ==> HS.Active(s.calls[c])
  {
    if HS.Caller(s, a).Some? { HS.CallerMoves(s, a); } else { HS.HandedCalls(s, a); }
  }

  lemma StaysOut(j: HS.Joint, x: HS.Action, f: S.FiberId)
    requires HS.Inv(j) && HS.Enabled(j, x) && !HS.Busy(j, f)
    requires x.BeginCall? ==> j.sched.workers[x.w].pc.fiber != f
    ensures !HS.Busy(HS.Apply(j, x), f)
  {
    var j' := HS.Apply(j, x);
    forall c | 0 <= c < |j'.fiberOf| && c < |j'.hook.calls| && HS.Active(j'.hook.calls[c]) ensures j'.fiberOf[c] != f {
      match x
      case CallStep(_, a) => ActiveBefore(j.hook, a, c);
      case WakeStep(a) => ActiveBefore(j.hook, a, c);
      case _ =>
    }
  }

  lemma StaysParked(j: HS.Joint, x: HS.Action, f: S.FiberId)
    requires HS.Inv(j) && HS.Enabled(j, x) && f in j.sched.parked && !HS.Busy(j, f)
    requires !(x.SchedStep? && x.b.Schedule? && x.b.item.work == S.RunFiber(f))
    ensures f in HS.Apply(j, x).sched.parked
  {
    match x
    case CallStep(w, _) => HS.StaysParked(j.sched, S.Park(w), f);
    case WakeStep(a) => NotHandedOver(j, a, f);
    case SchedStep(b) => HS.StaysParked(j.sched, b, f);
    case _ =>
  }

  /** The event table hands over fibers that are in a call. */
  lemma NotHandedOver(j: HS.Joint, a: HX.Action, f: S.FiberId)
    requires HS.Inv(j) && HS.Enabled(j, HS.WakeStep(a)) && f in j.sched.parked && !HS.Busy(j, f)
    ensures f in HS.Apply(j, HS.WakeStep(a)).sched.parked
  {
    var ids := HS.WokenCalls(j.hook, a);
    var fs := HS.Fibers(j, ids);
    HS.HandedCalls(j.hook, a);
    HS.WaitingDistinct(j.hook.calls, j.fiberOf, j.sched.parked, ids, fs);
    forall i | 0 <= i < |fs| ensures fs[i] != f {
      assert HS.Active(j.hook.calls[ids[i]]) && j.fiberOf[ids[i]] == fs[i];
    }
    HS.ScheduleParked(j.sched, fs);
  }

  lemma OtherKeeps(s: State, x: HS.Action)
    requires Inv(s) && Enabled(s, Other(x))
    ensures Inv(Apply(s, Other(x)))
  {
    var s' := Apply(s, Other(x));
    HS.JointStep(s.joint, x);
    JointConserved(s.joint, x);
    forall t | t in s'.sleeper ensures SleeperOk(s', t) {
      assert SleeperOk(s, t);
      JointTickets(s.joint, x, t);
      if s.woken[t] == 0 {
        assert Asleep(s, s.sleeper[t]);
        if x.BeginCall? { NotAsleep(s, x.w); }
        StaysParked(s.joint, x, s.sleeper[t]);
        StaysOut(s.joint, x, s.sleeper[t]);
      }
    }
  }

  // ---------------------------------------------------------------- every run

  lemma InvStep(s: State, a: Action)
    requires Inv(s) && Enabled(s, a)
    ensures Inv(Apply(s, a))
  {
    match a
    case Sleep(w, t, ms, now) => SleepKeeps(s, w, t, ms, now);
    case UseTimers(b) => UseTimersKeeps(s, b);
    case Collect(w, now, probe) => CollectKeeps(s, w, now, probe);
    case Hand(w, c) => HandKeeps(s, w, c);
    case Wake(w, t) => WakeKeeps(s, w, t);
    case Other(x) => OtherKeeps(s, x);
  }

  function Init(n: nat, useCaller: bool, start: nat): State {
    State(T.Init(start), HS.Init(n, useCaller), map[], multiset{}, multiset{})
  }

  ghost predicate RunFrom(s: State, states: seq<State>, acts: seq<Action>) {
    && |states| == |acts| + 1 && states[0] == s
    && forall i :: 0 <= i < |acts| ==> Enabled(states[i], acts[i]) && states[i + 1] == Apply(states[i], acts[i])
  }

  lemma InitInv(n: nat, useCaller: bool, start: nat)
    ensures Inv(Init(n, useCaller, start))
  {
    HS.InitJoint(n, useCaller);
  }

  lemma {:induction false} RunInv(states: seq<State>, acts: seq<Action>, n: nat, useCaller: bool, start: nat, i: nat)
    requires RunFrom(Init(n, useCaller, start), states, acts) && i < |states|
    ensures Inv(states[i])
  {
    if i == 0 {
      InitInv(n, useCaller, start);
    } else {
      RunInv(states, acts, n, useCaller, start, i - 1);
      InvStep(states[i - 1], acts[i - 1]);
    }
  }

  /** A callback's call is a schedule the scheduler allows, and the workers are as safe as they need to be. */
  ghost predicate StepSafe(s: State, a: Action) {
    && SR.OneWorkerPerFiber(s.joint.sched)
    && (a.Wake? ==>
          a.t in s.sleeper && S.Enabled(s.joint.sched, S.Schedule(Some(a.w), HS.Wakeup(s.sleeper[a.t]))))
    && (a.Other? && a.x.SchedStep? && S.Enabled(s.joint.sched, a.x.b) ==>
          && (a.x.b.Start? ==> SR.SwapInSafe(s.joint.sched, a.x.b.w))
          && (a.x.b.SetHold? ==> SR.HoldSafe(s.joint.sched, a.x.b.w)))
  }

  lemma InvSafe(s: State, a: Action)
    requires Inv(s) && Enabled(s, a)
    ensures StepSafe(s, a)
  {
    SR.ExclusiveHandling(s.joint.sched);
    if a.Wake? {
      WakesAreSchedules(s, a.w, a.t);
    } else if a.Other? && a.x.SchedStep? {
      HS.WorkersAreSafe(s.joint.sched, a.x.b);
    }
  }

  /**
   * In every run of sleeps, blocking calls and other timers on any number of workers: the callback of a
   * sleep finds its fiber parked, no fiber is on two workers, and a swap-in finds its fiber switched out.
   */
  lemma SleepsAreSafe(states: seq<State>, acts: seq<Action>, n: nat, useCaller: bool, start: nat, i: nat)
    requires RunFrom(Init(n, useCaller, start), states, acts) && i < |acts|
    ensures StepSafe(states[i], acts[i])
  {
    RunInv(states, acts, n, useCaller, start, i);
    InvSafe(states[i], acts[i]);
  }

  /**
   * A sleep is neither lost nor ended twice: until its fiber is scheduled it is parked, and the callback
   * that will do it is with the pending timer, collected, queued, or on a worker, and in one of them only.
   */
  lemma OneWakeUpPerSleep(states: seq<State>, acts: seq<Action>, n: nat, useCaller: bool, start: nat, i: nat, t: nat)
    requires RunFrom(Init(n, useCaller, start), states, acts) && i < |states| && t in states[i].sleeper
    ensures var s := states[i];
            && T.Pending(s.timers.m, t) + s.collected[t] + Queued(s.joint.sched, t) + Taken(s.joint.sched, t) == 1
            && s.woken[t] <= Taken(s.joint.sched, t)
            && (s.woken[t] == 0 ==> s.sleeper[t] in s.joint.sched.parked)
  {
    RunInv(states, acts, n, useCaller, start, i);
    OneTicket(states[i], t);
    assert SleeperOk(states[i], t);
  }
}
