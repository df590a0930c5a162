/**
 * The blocking calls, with the event table taken apart, on the scheduler that runs them. The worker loop
 * is safe as long as every fiber has one handle: it parks once, and whoever wakes it finds it parked. Here
 * the event table does the waking, and what it hands over is shown to be exactly such a handle.
 */
module HookSchedule {
  import opened Common
  import opened EventTable
  import opened EventAttached
  import E = EventRace
  import R = EventRuns
  import H = HookWait
  import HR = HookRuns
  import HX = HookRace
  import S = SchedulerMachine
  import SS = SchedulerSafety
  import SR = SchedulerRuns

  /** `fiberOf[c]` is the fiber that makes call `c`; a fiber makes many calls, one after the other. */
  datatype Joint = Joint(hook: HX.State, sched: S.State, fiberOf: seq<S.FiberId>)

  datatype Action =
    | BeginCall(w: nat, kind: H.Kind, fd: nat, event: Event, hasTimeout: bool)
    | CallStep(w: nat, a: HX.Action)   // by the fiber of a call: it tries, calls addEvent, or goes on
    | WakeStep(a: HX.Action)           // by others: a timeout or its callback, a delivery, close or cancel
    | SchedStep(b: S.Action)

  /** The calls whose fibers an operation of the table hands to the scheduler, in order. */
  function Ids(handed: seq<Handed>): seq<nat> {
    if handed == [] then []
    else (match handed[0].handle case FiberHandle(id) => [id] case CallbackHandle(_) => []) + Ids(handed[1..])
  }

  ghost function WokenCalls(s: HX.State, a: HX.Action): seq<nat>
    requires HX.Enabled(s, a)
  {
    Ids(HX.Gained(s.race, HX.Apply(s, a).race))
  }

  /** The call whose fiber takes this step, if it is one's. */
  function Caller(s: HX.State, a: HX.Action): Option<nat> {
    match a
    case Own(b) => if b.Attempt? || b.Resume? then Some(b.c) else None
    case StartAdd(c) => Some(c)
    case Lookup(k) => MakerOf(s, k)
    case Grow(k) => MakerOf(s, k)
    case Commit(k, _) => MakerOf(s, k)
    case _ => None
  }

  function MakerOf(s: HX.State, k: nat): Option<nat> {
    if k < |s.purpose| && s.purpose[k].Park? then Some(s.purpose[k].c) else None
  }

  function Wakeup(f: S.FiberId): S.Item { S.Item(S.RunFiber(f), -1) }

  /** The schedule calls that `triggerEvent` makes, one per fiber. */
  function ScheduleAll(s: S.State, fs: seq<S.FiberId>): S.State
    decreases |fs|
  {
    if fs == [] then s else ScheduleAll(S.DoSchedule(s, Wakeup(fs[0])), fs[1..])
  }

  /** Each of them is a step the scheduler's machine allows. */
  predicate AllEnabled(s: S.State, fs: seq<S.FiberId>)
    decreases |fs|
  {
    fs == [] || (S.Enabled(s, S.Schedule(None, Wakeup(fs[0]))) && AllEnabled(S.DoSchedule(s, Wakeup(fs[0])), fs[1..]))
  }

  /** The fibers of these calls; there is one for every call, so the other case does not come up. */
  function Fibers(j: Joint, cs: seq<nat>): (fs: seq<S.FiberId>)
    ensures |fs| == |cs| && forall i :: 0 <= i < |cs| && cs[i] < |j.fiberOf| ==> fs[i] == j.fiberOf[cs[i]]
  {
    seq(|cs|, i requires 0 <= i < |cs| => if cs[i] < |j.fiberOf| then j.fiberOf[cs[i]] else 0)
  }

  predicate Active(call: H.Call) { !call.pc.Returned? }

  /** Worker `w` runs fiber `f`, which has not given its handle away. */
  predicate RunsOn(s: S.State, w: nat, f: S.FiberId) {
    w < |s.workers| && s.workers[w].pc.Running? && s.workers[w].pc.fiber == f && !s.workers[w].pc.parked
  }

  /** The fiber of `c` is inside a call. */
  ghost predicate Busy(j: Joint, f: S.FiberId) {
    exists c :: 0 <= c < |j.fiberOf| && c < |j.hook.calls| && j.fiberOf[c] == f && Active(j.hook.calls[c])
  }

  predicate IsBegin(a: HX.Action) { a.Own? && a.a.Begin? }

  /**
   * Program order only: a call's own steps are taken by its fiber, a fiber begins one call at a time,
   * and while it is inside one nobody else parks or wakes it. That a wake-up finds it parked is not assumed.
   */
  ghost predicate Enabled(j: Joint, x: Action) {
    match x
    case BeginCall(w, _, _, _, _) =>
      && w < |j.sched.workers| && j.sched.workers[w].pc.Running?
      && !j.sched.workers[w].pc.parked && !Busy(j, j.sched.workers[w].pc.fiber)
    case CallStep(w, a) =>
      var c := Caller(j.hook, a);
      HX.Enabled(j.hook, a) && c.Some? && c.value < |j.fiberOf| && RunsOn(j.sched, w, j.fiberOf[c.value])
    case WakeStep(a) => HX.Enabled(j.hook, a) && Caller(j.hook, a).None? && !IsBegin(a)
    case SchedStep(b) =>
      && S.Enabled(j.sched, b)
      && (b.Schedule? && b.item.work.RunFiber? ==> !Busy(j, b.item.work.fiber))
      && (b.Park? ==> !Busy(j, j.sched.workers[b.w].pc.fiber))
  }

  /** addEvent has returned 0: the call is registered and about to yield. */
  predicate WaitsNow(s: HX.State, c: nat) { c < |s.calls| && s.calls[c].pc == H.Waiting }

  ghost function Apply(j: Joint, x: Action): Joint
    requires Enabled(j, x)
  {
    match x
    case BeginCall(w, kind, fd, event, hasTimeout) =>
      Joint(HX.Apply(j.hook, HX.Own(H.Begin(kind, fd, event, hasTimeout))), j.sched,
            j.fiberOf + [j.sched.workers[w].pc.fiber])
    case CallStep(w, a) =>
      var hook := HX.Apply(j.hook, a);
      Joint(hook, if WaitsNow(hook, Caller(j.hook, a).value) then S.Apply(j.sched, S.Park(w)) else j.sched, j.fiberOf)
    case WakeStep(a) =>
      j.(hook := HX.Apply(j.hook, a), sched := ScheduleAll(j.sched, Fibers(j, WokenCalls(j.hook, a))))
    case SchedStep(b) => j.(sched := S.Apply(j.sched, b))
  }

  // ---------------------------------------------------------------- the invariant

  ghost predicate Matched(calls: seq<H.Call>, fiberOf: seq<S.FiberId>, parked: set<S.FiberId>) {
    && |fiberOf| == |calls|
    && (forall c :: 0 <= c < |calls| && calls[c].pc == H.Waiting ==> fiberOf[c] in parked)
    && (forall c, d ::
          0 <= c < |calls| && 0 <= d < |calls| && Active(calls[c]) && Active(calls[d]) && fiberOf[c] == fiberOf[d] ==>
            c == d)
  }

  ghost predicate Inv(j: Joint) {
    HX.Inv(j.hook) && SS.Inv(j.sched) && Matched(j.hook.calls, j.fiberOf, j.sched.parked)
  }

  // ---------------------------------------------------------------- what is handed over

  predicate Distinct(s: seq<nat>) { forall i, j :: 0 <= i < j < |s| ==> s[i] != s[j] }

  /** The calls handed over are waiting, each is handed over once, and exactly they are woken. */
  ghost predicate Hands(calls: seq<H.Call>, calls': seq<H.Call>, ids: seq<nat>) {
    && |calls'| == |calls| && Distinct(ids)
    && (forall i :: 0 <= i < |ids| ==> ids[i] < |calls| && calls[ids[i]].pc == H.Waiting)
    && (forall c :: 0 <= c < |calls| ==> calls'[c].pc == if c in ids then H.Runnable else calls[c].pc)
  }

  lemma HandedCalls(s: HX.State, a: HX.Action)
    requires HX.Inv(s) && HX.Enabled(s, a) && Caller(s, a).None? && !IsBegin(a)
    ensures Hands(s.calls, HX.Apply(s, a).calls, WokenCalls(s, a))
  {
    if a.Commit? { HandedByCommit(s, a.k, a.ok); } else { HandsNothing(s, a); }
  }

  lemma HandsNothing(s: HX.State, a: HX.Action)
    requires HX.Inv(s) && HX.Enabled(s, a) && Caller(s, a).None? && !IsBegin(a) && !a.Commit?
    ensures Hands(s.calls, HX.Apply(s, a).calls, WokenCalls(s, a))
  {
    assert HX.Gained(s.race, HX.Apply(s, a).race) == [];
    match a
    case Lookup(k) => HX.LookupKeeps(s, k);
    case Grow(k) => HX.GrowKeeps(s, k);
    case Own(b) => TimerCalls(HX.Bare(s), b);
    case _ =>
  }

  lemma HandedByCommit(s: HX.State, k: nat, ok: bool)
    requires HX.Inv(s) && HX.Enabled(s, HX.Commit(k, ok)) && !s.purpose[k].Park?
    ensures Hands(s.calls, HX.Apply(s, HX.Commit(k, ok)).calls, WokenCalls(s, HX.Commit(k, ok)))
  {
    var r' := E.Apply(s.race, E.Commit(k, ok));
    var op := E.WithOk(s.race.calls[k].op, ok);
    HX.CommitEnds(s, k, ok);
    HX.OthersOp(s, k, ok);
    HandedByEnd(s, k, r', op, E.Section(s.race, s.race.calls[k].op, s.race.calls[k].pc.ctx, ok).1);
  }

  lemma HandedByEnd(s: HX.State, k: nat, r': E.State, op: R.Action, out: Outcome)
    requires HX.Inv(s) && HX.Answered(s, k, r', op, out) && !s.purpose[k].Park? && !op.Add? && !op.Del?
    ensures HX.Went(s, k, r').race == r' && Hands(s.calls, HX.Went(s, k, r').calls, Ids(HX.Gained(s.race, r')))
  {
    HX.OthersAnswered(HX.Shown(s), op, Attached(r'), out);
    HX.OtherEnded(s, k, r', out);
    HandedByTable(HX.Shown(s), op, Attached(r'), out);
  }

  lemma HandedByTable(s: H.State, op: R.Action, t': Table, out: Outcome)
    requires HR.Inv(s) && !op.Add? && !op.Del? && out != Aborted
    requires out == Done ==> R.Result(s.table, op) == (t', Done)
    requires out == Refused ==> t' == s.table
    ensures |t'.log| >= |s.table.log| && Hands(s.calls, H.TableStep(s, t').calls, Ids(t'.log[|s.table.log|..]))
  {
    if out == Done {
      HX.SameOp(s, op);
      var fd, bits := H.OpHandsOver(s, HX.AsHook(op));
      HandedIds(s, fd, bits, t');
      HR.TableStepWakes(s, fd, bits, t');
    } else {
      HR.QuietTableStep(s);
      assert s.table.log[|s.table.log|..] == [];
    }
  }

  lemma HandedIds(s: H.State, fd: nat, bits: set<Event>, t': Table)
    requires HR.SlotsNameCalls(s.table.slots, s.calls) && H.HandsOver(s.table, t', fd, bits)
    ensures |t'.log| >= |s.table.log|
    ensures var ids := Ids(t'.log[|s.table.log|..]);
            && Distinct(ids)
            && (forall i :: 0 <= i < |ids| ==> ids[i] < |s.calls| && s.calls[ids[i]].pc == H.Waiting)
            && (forall k: nat :: k in ids <==> HR.ParkedIn(s.table.slots[fd], bits, k))
  {
    var c := s.table.slots[fd];
    assert t'.log[|s.table.log|..] == H.HandedBy(c, bits);
    forall e | e in bits ensures FiberIn(c, e) && Named(s, fd, e, Context(c, e).fiber.value) {
      assert Context(c, e).fiber.Some?;
      assert HR.Parks(s.table.slots, fd, e, Context(c, e).fiber.value);
    }
    IdsOf(c, bits);
  }

  predicate FiberIn(c: FdContext, e: Event) {
    CanTrigger(c, e) && Context(c, e).fiber.Some? && Context(c, e).cb.None?
  }

  predicate Named(s: H.State, fd: nat, e: Event, k: nat) {
    k < |s.calls| && s.calls[k].pc == H.Waiting && s.calls[k].fd == fd && s.calls[k].event == e
  }

  lemma IdsOf(c: FdContext, bits: set<Event>)
    requires (READ in bits ==> FiberIn(c, READ)) && (WRITE in bits ==> FiberIn(c, WRITE))
    ensures Ids(H.HandedBy(c, bits)) ==
            (if READ in bits then [c.read.fiber.value] else []) + (if WRITE in bits then [c.write.fiber.value] else [])
  {
    var r := if READ in bits then [TriggerContext(c, READ).1] else [];
    var w := if WRITE in bits then [TriggerContext(c, WRITE).1] else [];
    var none: seq<Handed> := [];
    assert H.HandedBy(c, bits) == r + w;
    if WRITE in bits {
      assert w[1..] == none;
      assert Ids(w) == [c.write.fiber.value] + Ids(none);
    }
    if READ in bits {
      assert (r + w)[1..] == w;
      assert Ids(r + w) == [c.read.fiber.value] + Ids(w);
    } else {
      assert r + w == w;
    }
  }

  /** Waking distinct parked fibers is a sequence of enabled steps that keeps the scheduler safe. */
  lemma {:induction false} ScheduleParked(s: S.State, fs: seq<S.FiberId>)
    requires SS.Inv(s) && Distinct(fs) && forall i :: 0 <= i < |fs| ==> fs[i] in s.parked
    ensures AllEnabled(s, fs) && SS.Inv(ScheduleAll(s, fs))
    ensures forall f :: f in s.parked && f !in fs ==> f in ScheduleAll(s, fs).parked
    decreases |fs|
  {
    if fs != [] {
      var s1 := S.DoSchedule(s, Wakeup(fs[0]));
      SS.InvSchedule(s, Wakeup(fs[0]));
      assert s1.parked == s.parked - {fs[0]};
      ScheduleParked(s1, fs[1..]);
      forall f | f in s.parked && f !in fs ensures f in ScheduleAll(s, fs).parked {
        assert fs[0] in fs && f in s1.parked;
      }
    }
  }

  // ---------------------------------------------------------------- every joint run

  /** What the event table hands over is a parked fiber each time: the scheduler allows every wake-up. */
  lemma HandOversAreSchedules(j: Joint, a: HX.Action)
    requires Inv(j) && Enabled(j, WakeStep(a))
    ensures AllEnabled(j.sched, Fibers(j, WokenCalls(j.hook, a)))
    ensures Inv(Apply(j, WakeStep(a)))
  {
    var ids := WokenCalls(j.hook, a);
    var fs := Fibers(j, ids);
    HandedCalls(j.hook, a);
    HX.InvStep(j.hook, a);
    HandedMatched(j.hook.calls, HX.Apply(j.hook, a).calls, j.fiberOf, j.sched, ids, fs);
  }

  lemma HandedMatched(calls: seq<H.Call>, calls': seq<H.Call>, fiberOf: seq<S.FiberId>, sched: S.State,
                      ids: seq<nat>, fs: seq<S.FiberId>)
    requires SS.Inv(sched) && Matched(calls, fiberOf, sched.parked) && Hands(calls, calls', ids)
    requires |fs| == |ids| && forall i :: 0 <= i < |ids| && ids[i] < |fiberOf| ==> fs[i] == fiberOf[ids[i]]
    ensures AllEnabled(sched, fs) && SS.Inv(ScheduleAll(sched, fs))
    ensures Matched(calls', fiberOf, ScheduleAll(sched, fs).parked)
  {
    WaitingDistinct(calls, fiberOf, sched.parked, ids, fs);
    ScheduleParked(sched, fs);
    WokenMatched(calls, calls', fiberOf, sched.parked, ScheduleAll(sched, fs).parked, ids, fs);
  }

  lemma WaitingDistinct(calls: seq<H.Call>, fiberOf: seq<S.FiberId>, parked: set<S.FiberId>, ids: seq<nat>,
                        fs: seq<S.FiberId>)
    requires Matched(calls, fiberOf, parked) && Distinct(ids) && |fs| == |ids|
    requires forall i :: 0 <= i < |ids| ==>
               ids[i] < |calls| && calls[ids[i]].pc == H.Waiting && fs[i] == fiberOf[ids[i]]
    ensures Distinct(fs) && forall i :: 0 <= i < |fs| ==> fs[i] in parked
  {
    forall i, k | 0 <= i < k < |fs| ensures fs[i] != fs[k] {
      assert ids[i] != ids[k];
    }
  }

  lemma WokenMatched(calls: seq<H.Call>, calls': seq<H.Call>, fiberOf: seq<S.FiberId>, parked: set<S.FiberId>,
                     parked': set<S.FiberId>, ids: seq<nat>, fs: seq<S.FiberId>)
    requires Matched(calls, fiberOf, parked) && |calls'| == |calls| && |fs| == |ids|
    requires forall i :: 0 <= i < |ids| ==>
               ids[i] < |calls| && calls[ids[i]].pc == H.Waiting && fs[i] == fiberOf[ids[i]]
    requires forall c :: 0 <= c < |calls| ==> calls'[c].pc == if c in ids then H.Runnable else calls[c].pc
    requires forall f :: f in parked && f !in fs ==> f in parked'
    ensures Matched(calls', fiberOf, parked')
  {
    forall c | 0 <= c < |calls'| && calls'[c].pc == H.Waiting ensures fiberOf[c] in parked' {
      forall i | 0 <= i < |fs| ensures fs[i] != fiberOf[c] {
        assert ids[i] in ids;
      }
    }
  }

  lemma CallKeeps(j: Joint, w: nat, a: HX.Action)
    requires Inv(j) && Enabled(j, CallStep(w, a))
    ensures Inv(Apply(j, CallStep(w, a)))
  {
    var c, hook := Caller(j.hook, a).value, HX.Apply(j.hook, a);
    HX.InvStep(j.hook, a);
    CallerMoves(j.hook, a);
    if WaitsNow(hook, c) {
      SS.InvPark(j.sched, w);
      OwnMatched(j.hook.calls, hook.calls, j.fiberOf, j.sched.parked, S.Apply(j.sched, S.Park(w)).parked, c);
    } else {
      OwnMatched(j.hook.calls, hook.calls, j.fiberOf, j.sched.parked, j.sched.parked, c);
    }
  }

  lemma OwnMatched(calls: seq<H.Call>, calls': seq<H.Call>, fiberOf: seq<S.FiberId>,
                   parked: set<S.FiberId>, parked': set<S.FiberId>, c: nat)
    requires Matched(calls, fiberOf, parked) && parked <= parked' && |calls'| == |calls| && c < |calls|
             && Active(calls[c])
    requires forall d :: 0 <= d < |calls| && d != c ==> calls'[d] == calls[d]
    requires calls'[c].pc == H.Waiting ==> fiberOf[c] in parked'
    ensures Matched(calls', fiberOf, parked')
  {}

  /** A call's step moves that call only, which is running its code and not waiting. */
  lemma CallerMoves(s: HX.State, a: HX.Action)
    requires HX.Inv(s) && HX.Enabled(s, a) && Caller(s, a).Some?
    ensures var s', c := HX.Apply(s, a), Caller(s, a).value;
            && |s'.calls| == |s.calls| && c < |s.calls| && Active(s.calls[c]) && s.calls[c].pc != H.Waiting
            && forall d :: 0 <= d < |s.calls| && d != c ==> s'.calls[d] == s.calls[d]
  {
    match a
    case Own(b) => OwnCalls(HX.Bare(s), b);
    case StartAdd(c) =>
    case Lookup(k) =>
      assert HX.OpOk(s.calls, s.timers, s.race.calls[k], s.purpose[k]);
      HX.LookupKeeps(s, k);
    case Grow(k) =>
      assert HX.OpOk(s.calls, s.timers, s.race.calls[k], s.purpose[k]);
      HX.GrowKeeps(s, k);
    case Commit(k, ok) => CommitMoves(s, k, ok);
  }

  lemma CommitMoves(s: HX.State, k: nat, ok: bool)
    requires HX.Inv(s) && HX.Enabled(s, HX.Commit(k, ok)) && s.purpose[k].Park?
    ensures var s', c := HX.Apply(s, HX.Commit(k, ok)), s.purpose[k].c;
            && |s'.calls| == |s.calls| && c < |s.calls| && s.calls[c].pc == H.Armed
            && forall d :: 0 <= d < |s.calls| && d != c ==> s'.calls[d] == s.calls[d]
  {
    var r' := E.Apply(s.race, E.Commit(k, ok));
    assert HX.OpOk(s.calls, s.timers, s.race.calls[k], s.purpose[k]);
    HX.CommitEnds(s, k, ok);
    HX.AddWent(s, k, r', r'.calls[k].pc.out, s.purpose[k].c);
  }

  lemma OwnCalls(s: H.State, a: H.Action)
    requires H.Enabled(s, a) && (a.Attempt? || a.Resume?)
    ensures var s' := H.Apply(s, a);
            && |s'.calls| == |s.calls| && a.c < |s.calls| && Active(s.calls[a.c]) && s.calls[a.c].pc != H.Waiting
            && forall c :: 0 <= c < |s.calls| && c != a.c ==> s'.calls[c] == s.calls[c]
  {}

  lemma TimerCalls(s: H.State, a: H.Action)
    requires H.Enabled(s, a) && (a.Expire? || a.CbLock? || a.CbCheck? || a.CbFlag?)
    ensures |H.Apply(s, a).calls| == |s.calls|
    ensures forall c :: 0 <= c < |s.calls| ==> H.Apply(s, a).calls[c].pc == s.calls[c].pc
  {
    match a case _ =>
  }

  /** Only a schedule of its own takes a fiber out of the parked ones. */
  lemma StaysParked(s: S.State, b: S.Action, f: S.FiberId)
    requires S.Enabled(s, b) && f in s.parked && !(b.Schedule? && b.item.work == S.RunFiber(f))
    ensures f in S.Apply(s, b).parked
  {
    match b case _ =>
  }

  lemma SchedKeeps(j: Joint, b: S.Action)
    requires Inv(j) && Enabled(j, SchedStep(b))
    ensures Inv(Apply(j, SchedStep(b)))
  {
    SS.InvStep(j.sched, b);
    WaitersParked(j, b);
  }

  lemma WaitersParked(j: Joint, b: S.Action)
    requires Matched(j.hook.calls, j.fiberOf, j.sched.parked) && Enabled(j, SchedStep(b))
    ensures Matched(j.hook.calls, j.fiberOf, S.Apply(j.sched, b).parked)
  {
    forall c | 0 <= c < |j.hook.calls| && j.hook.calls[c].pc == H.Waiting
      ensures j.fiberOf[c] in S.Apply(j.sched, b).parked
    {
      if b.Schedule? && b.item.work.RunFiber? {
        assert !Busy(j, b.item.work.fiber);
        assert Active(j.hook.calls[c]);
      }
      StaysParked(j.sched, b, j.fiberOf[c]);
    }
  }

  lemma BeginKeeps(j: Joint, x: Action)
    requires Inv(j) && x.BeginCall? && Enabled(j, x)
    ensures Inv(Apply(j, x))
  {
    var a := HX.Own(H.Begin(x.kind, x.fd, x.event, x.hasTimeout));
    HX.InvStep(j.hook, a);
    BeginMatched(j, HX.Apply(j.hook, a).calls, j.sched.workers[x.w].pc.fiber);
  }

  lemma BeginMatched(j: Joint, calls': seq<H.Call>, f: S.FiberId)
    requires Matched(j.hook.calls, j.fiberOf, j.sched.parked) && !Busy(j, f)
    requires |calls'| == |j.hook.calls| + 1 && calls'[..|j.hook.calls|] == j.hook.calls
             && calls'[|j.hook.calls|].pc != H.Waiting
    ensures Matched(calls', j.fiberOf + [f], j.sched.parked)
  {
    forall c | 0 <= c < |j.hook.calls| && Active(j.hook.calls[c]) ensures j.fiberOf[c] != f {
      assert j.fiberOf[c] == f ==> Busy(j, f);
    }
    forall c | 0 <= c < |j.hook.calls| ensures calls'[c] == j.hook.calls[c] {
      assert calls'[c] == calls'[..|j.hook.calls|][c];
    }
  }

  lemma JointStep(j: Joint, x: Action)
    requires Inv(j) && Enabled(j, x)
    ensures Inv(Apply(j, x))
  {
    match x
    case BeginCall(_, _, _, _, _) => BeginKeeps(j, x);
    case CallStep(w, a) => CallKeeps(j, w, a);
    case WakeStep(a) => HandOversAreSchedules(j, a);
    case SchedStep(b) => SchedKeeps(j, b);
  }

  function Init(n: nat, useCaller: bool): Joint { Joint(HX.Init(), S.Init(n, useCaller), []) }

  ghost predicate RunFrom(j: Joint, states: seq<Joint>, acts: seq<Action>) {
    && |states| == |acts| + 1 && states[0] == j
    && forall i :: 0 <= i < |acts| ==> Enabled(states[i], acts[i]) && states[i + 1] == Apply(states[i], acts[i])
  }

  lemma InitJoint(n: nat, useCaller: bool)
    ensures Inv(Init(n, useCaller))
  {
    SS.InvInit(n, useCaller);
    HX.InitInv();
  }

  lemma {:induction false} JointInv(states: seq<Joint>, acts: seq<Action>, n: nat, useCaller: bool, i: nat)
    requires RunFrom(Init(n, useCaller), states, acts) && i < |states|
    ensures Inv(states[i])
  {
    if i == 0 {
      InitJoint(n, useCaller);
    } else {
      JointInv(states, acts, n, useCaller, i - 1);
      JointStep(states[i - 1], acts[i - 1]);
    }
  }

  /**
   * In every run of blocking calls on any number of workers: each hand-over of the event table is a
   * schedule the worker loop relies on, no fiber is on two workers, and a swap-in finds its fiber
   * switched out and nowhere else. The discipline that the scheduler's safety assumes is kept.
   */
  lemma BlockingCallsAreSafe(states: seq<Joint>, acts: seq<Action>, n: nat, useCaller: bool, i: nat)
    requires RunFrom(Init(n, useCaller), states, acts) && i < |acts|
    ensures acts[i].WakeStep? ==> AllEnabled(states[i].sched, Fibers(states[i], WokenCalls(states[i].hook, acts[i].a)))
    ensures SR.OneWorkerPerFiber(states[i].sched)
    ensures acts[i].SchedStep? && acts[i].b.Start? ==> SR.SwapInSafe(states[i].sched, acts[i].b.w)
    ensures acts[i].SchedStep? && acts[i].b.SetHold? ==> SR.HoldSafe(states[i].sched, acts[i].b.w)
  {
    JointInv(states, acts, n, useCaller, i);
    SR.ExclusiveHandling(states[i].sched);
    if acts[i].WakeStep? {
      HandOversAreSchedules(states[i], acts[i].a);
    } else if acts[i].SchedStep? {
      WorkersAreSafe(states[i].sched, acts[i].b);
    }
  }

  lemma WorkersAreSafe(s: S.State, b: S.Action)
    requires SS.Inv(s) && S.Enabled(s, b)
    ensures b.Start? ==> SR.SwapInSafe(s, b.w)
    ensures b.SetHold? ==> SR.HoldSafe(s, b.w)
  {
    if b.Start? || b.SetHold? { assert SS.WorkerOk(s.workers[b.w], s.fibers); }
  }
}
