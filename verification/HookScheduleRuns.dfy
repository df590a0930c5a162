/** A run of a blocking call on one worker, from its schedule to the hand-over that wakes it. */
module HookScheduleRuns {
  import opened Common
  import opened EventTable
  import opened HookSchedule
  import E = EventRace
  import ER = EventRaceRuns
  import R = EventRuns
  import H = HookWait
  import HX = HookRace
  import S = SchedulerMachine
  import SS = SchedulerSafety

  // ---------------------------------------------------------------- such runs exist

  ghost predicate Reachable(j: Joint, n: nat, useCaller: bool) {
    exists states, acts :: RunFrom(Init(n, useCaller), states, acts) && states[|acts|] == j
  }

  lemma ReachStep(j: Joint, x: Action, n: nat, useCaller: bool)
    requires Reachable(j, n, useCaller) && Enabled(j, x)
    ensures Reachable(Apply(j, x), n, useCaller)
  {
    var states, acts :| RunFrom(Init(n, useCaller), states, acts) && states[|acts|] == j;
    RunOn(Init(n, useCaller), states, acts, x);
    assert (states + [Apply(j, x)])[|acts + [x]|] == Apply(j, x);
  }

  lemma RunOn(j: Joint, states: seq<Joint>, acts: seq<Action>, x: Action)
    requires RunFrom(j, states, acts) && Enabled(states[|acts|], x)
    ensures RunFrom(j, states + [Apply(states[|acts|], x)], acts + [x])
  {
    var states', acts' := states + [Apply(states[|acts|], x)], acts + [x];
    forall i | 0 <= i < |acts'| ensures Enabled(states'[i], acts'[i]) && states'[i + 1] == Apply(states'[i], acts'[i]) {
      if i < |acts| { assert Enabled(states[i], acts[i]) && states[i + 1] == Apply(states[i], acts[i]); }
    }
  }

  /** Before any call the scheduler moves freely. */
  lemma ReachSched(j: Joint, b: S.Action, n: nat, useCaller: bool)
    requires Reachable(j, n, useCaller) && j.fiberOf == [] && S.Enabled(j.sched, b)
    ensures Reachable(j.(sched := S.Apply(j.sched, b)), n, useCaller)
  {
    assert Enabled(j, SchedStep(b));
    ReachStep(j, SchedStep(b), n, useCaller);
  }

  /** The only worker, with one fiber queued, and with that fiber taken. */
  function OneQueued(f: S.FiberId): S.State {
    S.State([Wakeup(f)], map[f := S.Fiber(S.INIT, true)], {}, [S.Worker(S.Top, None, false)], 0, false, [Wakeup(f)], [])
  }

  function OneTaken(f: S.FiberId): S.State {
    S.State([], map[f := S.Fiber(S.INIT, true)], {}, [S.Worker(S.Took(Wakeup(f)), None, false)], 1, false,
            [Wakeup(f)], [Wakeup(f)])
  }

  lemma OneIsQueued(f: S.FiberId)
    ensures S.Enabled(S.Init(1, false), S.Schedule(None, Wakeup(f)))
    ensures S.Apply(S.Init(1, false), S.Schedule(None, Wakeup(f))) == OneQueued(f)
  {
    assert S.Init(1, false).workers == [S.Worker(S.Top, None, false)];
  }

  lemma OneIsTaken(f: S.FiberId)
    ensures S.Enabled(OneQueued(f), S.Take(0)) && S.Apply(OneQueued(f), S.Take(0)) == OneTaken(f)
  {
    var s := OneQueued(f);
    assert S.Scan(s.queue, 0, s.fibers) == 0;
    assert RemoveAt(s.queue, 0) == [];
  }

  lemma OneStarts(f: S.FiberId, unused: S.FiberId)
    requires f != unused
    ensures S.Enabled(OneTaken(f), S.Start(0, unused))
    ensures RunsOn(S.Apply(OneTaken(f), S.Start(0, unused)), 0, f)
            && S.Apply(OneTaken(f), S.Start(0, unused)).queue == []
  {}

  lemma FiberRuns() returns (j: Joint)
    ensures Reachable(j, 1, false) && j.hook == HX.Init() && j.fiberOf == []
    ensures RunsOn(j.sched, 0, 9) && j.sched.queue == []
  {
    j := Init(1, false);
    var none: seq<Action> := [];
    assert RunFrom(j, [j], none) && [j][|none|] == j;
    OneIsQueued(9);
    ReachSched(j, S.Schedule(None, Wakeup(9)), 1, false);
    OneIsTaken(9);
    ReachSched(j.(sched := OneQueued(9)), S.Take(0), 1, false);
    OneStarts(9, 10);
    ReachSched(j.(sched := OneTaken(9)), S.Start(0, 10), 1, false);
    j := j.(sched := S.Apply(OneTaken(9), S.Start(0, 10)));
  }

  /** It begins a read on descriptor 5 that cannot be served at once. */
  lemma FiberArmed() returns (j: Joint)
    ensures Reachable(j, 1, false) && j.fiberOf == [9] && RunsOn(j.sched, 0, 9) && j.sched.queue == []
    ensures j.hook == HX.State(E.Init(), [H.Call(H.DoIo, 5, READ, false, H.Armed, false, None, 0, 0)], [], [])
  {
    j := FiberRuns();
    assert Enabled(j, BeginCall(0, H.DoIo, 5, READ, false));
    ReachStep(j, BeginCall(0, H.DoIo, 5, READ, false), 1, false);
    j := Apply(j, BeginCall(0, H.DoIo, 5, READ, false));
    var a := HX.Own(H.Attempt(0, true));
    assert HX.Enabled(j.hook, a);
    ReachStep(j, CallStep(0, a), 1, false);
    j := Apply(j, CallStep(0, a));
  }

  /** It calls addEvent and looks the context up. */
  lemma FiberHolds() returns (j: Joint)
    ensures Reachable(j, 1, false) && j.fiberOf == [9] && RunsOn(j.sched, 0, 9) && j.sched.queue == []
    ensures |j.hook.calls| == 1 && j.hook.calls[0].pc == H.Armed && j.hook.calls[0].fd == 5
    ensures j.hook.purpose == [HX.Park(0)]
    ensures j.hook.race == E.Init().(calls := [E.Call(HX.AddOf(j.hook.calls, 0), E.Holding(5))])
  {
    j := FiberArmed();
    var hook := j.hook;
    var r := hook.race;
    assert HX.Enabled(hook, HX.StartAdd(0));
    ReachStep(j, CallStep(0, HX.StartAdd(0)), 1, false);
    j := Apply(j, CallStep(0, HX.StartAdd(0)));
    assert j.hook.race == r.(calls := [E.Call(HX.AddOf(hook.calls, 0), E.Begun)]);
    assert HX.Enabled(j.hook, HX.Lookup(0));
    ReachStep(j, CallStep(0, HX.Lookup(0)), 1, false);
    j := Apply(j, CallStep(0, HX.Lookup(0)));
  }

  /** An unused context of a descriptor the kernel does not know takes the registration. */
  lemma AddSucceeds(s: HX.State)
    requires HX.Inv(s) && |s.calls| == 1 && s.calls[0].pc == H.Armed && s.purpose == [HX.Park(0)]
    requires s.race == E.Init().(calls := [E.Call(HX.AddOf(s.calls, 0), E.Holding(5))]) && s.calls[0].fd == 5
    ensures HX.Enabled(s, HX.Commit(0, true))
    ensures var s' := HX.Apply(s, HX.Commit(0, true));
            |s'.calls| == 1 && WaitsNow(s', 0)
  {
    var op := E.WithOk(HX.AddOf(s.calls, 0), true);
    ER.FreshContextRegisters(E.ViewAt(s.race, 5, 5), op);
    CommitWaits(s);
  }

  lemma CommitWaits(s: HX.State)
    requires HX.Inv(s) && HX.Enabled(s, HX.Commit(0, true)) && |s.calls| == 1 && s.calls[0].pc == H.Armed
    requires s.purpose == [HX.Park(0)] && E.Section(s.race, s.race.calls[0].op, s.race.calls[0].pc.ctx, true).1 == Done
    ensures var s' := HX.Apply(s, HX.Commit(0, true));
            |s'.calls| == 1 && WaitsNow(s', 0)
  {
    var r' := E.Apply(s.race, E.Commit(0, true));
    HX.CommitEnds(s, 0, true);
    HX.AddWent(s, 0, r', Done, 0);
  }

  lemma ReachableInv(j: Joint, n: nat, useCaller: bool)
    requires Reachable(j, n, useCaller)
    ensures Inv(j)
  {
    var states, acts :| RunFrom(Init(n, useCaller), states, acts) && states[|acts|] == j;
    JointInv(states, acts, n, useCaller, |acts|);
  }

  lemma FiberParked() returns (j: Joint)
    ensures Reachable(j, 1, false) && j.fiberOf == [9] && 9 in j.sched.parked && j.sched.queue == []
    ensures |j.hook.calls| == 1 && j.hook.calls[0].pc == H.Waiting
  {
    j := FiberHolds();
    ReachableInv(j, 1, false);
    AddSucceeds(j.hook);
    j := CallParks(j, HX.Commit(0, true));
  }

  /** A step of the only call's fiber after which the call waits. */
  lemma CallParks(j: Joint, a: HX.Action) returns (j': Joint)
    requires Reachable(j, 1, false) && j.fiberOf == [9] && RunsOn(j.sched, 0, 9) && HX.Enabled(j.hook, a)
    requires Caller(j.hook, a) == Some(0) && WaitsNow(HX.Apply(j.hook, a), 0)
    ensures Reachable(j', 1, false) && j'.fiberOf == [9] && j'.hook == HX.Apply(j.hook, a)
    ensures 9 in j'.sched.parked && j'.sched.queue == j.sched.queue
  {
    assert Enabled(j, CallStep(0, a));
    ReachStep(j, CallStep(0, a), 1, false);
    j' := Apply(j, CallStep(0, a));
  }

  /** A step of others that hands nothing over leaves the scheduler alone. */
  lemma ReachQuiet(j: Joint, a: HX.Action, n: nat, useCaller: bool)
    requires Reachable(j, n, useCaller) && Enabled(j, WakeStep(a)) && HX.Apply(j.hook, a).race.log == j.hook.race.log
    ensures Reachable(j.(hook := HX.Apply(j.hook, a)), n, useCaller)
  {
    assert HX.Gained(j.hook.race, HX.Apply(j.hook, a).race) == [];
    assert Fibers(j, []) == [];
    ReachStep(j, WakeStep(a), n, useCaller);
  }

  /** The kernel reports the descriptor. */
  lemma ReportStarted() returns (j: Joint, k: nat)
    ensures Reachable(j, 1, false) && j.fiberOf == [9] && 9 in j.sched.parked && j.sched.queue == []
    ensures |j.hook.calls| == 1 && j.hook.calls[0].pc == H.Waiting && HX.Inv(j.hook)
    ensures k < |j.hook.purpose| && j.hook.purpose[k] == HX.Free && HX.Enabled(j.hook, HX.Lookup(k))
    ensures var s := HX.Apply(j.hook, HX.Lookup(k));
            HX.Enabled(s, HX.Commit(k, true)) && HX.Resumes(HX.Apply(s, HX.Commit(k, true)), j.hook, 0)
  {
    j := FiberParked();
    ReachableInv(j, 1, false);
    var s := j.hook;
    k := |s.race.calls|;
    var op := R.Report(s.calls[0].fd, {s.calls[0].event}, false, true);
    var a := HX.StartOther(op);
    HX.OwnReport(s, 0);
    HX.ReportResumes(s, 0, op);
    ReachQuiet(j, a, 1, false);
    HX.InvStep(s, a);
    j := j.(hook := HX.Apply(s, a));
  }

  /** The delivery has its context. */
  lemma ReportTaken() returns (j: Joint, k: nat)
    ensures Reachable(j, 1, false) && j.fiberOf == [9] && 9 in j.sched.parked && j.sched.queue == []
    ensures |j.hook.calls| == 1 && j.hook.calls[0].pc == H.Waiting && HX.Inv(j.hook)
    ensures HX.Enabled(j.hook, HX.Commit(k, true)) && k < |j.hook.purpose| && j.hook.purpose[k] == HX.Free
    ensures HX.Resumes(HX.Apply(j.hook, HX.Commit(k, true)), j.hook, 0)
  {
    j, k := ReportStarted();
    LookedUp(j, k);
    j := j.(hook := HX.Apply(j.hook, HX.Lookup(k)));
  }

  lemma LookedUp(j: Joint, k: nat)
    requires Reachable(j, 1, false) && HX.Inv(j.hook)
    requires HX.Enabled(j.hook, HX.Lookup(k)) && j.hook.purpose[k] == HX.Free
    ensures var s := HX.Apply(j.hook, HX.Lookup(k));
            && Reachable(j.(hook := s), 1, false) && HX.Inv(s) && s.calls == j.hook.calls && s.purpose == j.hook.purpose
  {
    HX.LookupKeeps(j.hook, k);
    ReachQuiet(j, HX.Lookup(k), 1, false);
  }

  lemma OnlyZero(calls: seq<H.Call>, calls': seq<H.Call>, ids: seq<nat>)
    requires Hands(calls, calls', ids) && |calls| == 1 && calls'[0].pc != calls[0].pc
    ensures ids == [0]
  {
    assert 0 in ids;
    if |ids| >= 2 { Differ(ids, 0, 1); }
  }

  lemma Differ(s: seq<nat>, i: nat, j: nat)
    requires Distinct(s) && i < j < |s|
    ensures s[i] != s[j]
  {}

  /** The descriptor becomes readable before the fiber has even yielded: its handle is queued, once. */
  lemma WokenBeforeYielding() returns (j: Joint, a: HX.Action)
    ensures Reachable(j, 1, false) && j.fiberOf == [9] && 9 in j.sched.parked && j.sched.queue == []
    ensures Enabled(j, WakeStep(a)) && WokenCalls(j.hook, a) == [0]
    ensures AllEnabled(j.sched, [9]) && ScheduleAll(j.sched, [9]).queue == [Wakeup(9)]
  {
    var k;
    j, k := ReportTaken();
    a := HX.Commit(k, true);
    ReachableInv(j, 1, false);
    HandedCalls(j.hook, a);
    OnlyZero(j.hook.calls, HX.Apply(j.hook, a).calls, WokenCalls(j.hook, a));
    QueuedOnce(j.sched);
  }

  lemma QueuedOnce(s: S.State)
    requires SS.Inv(s) && 9 in s.parked && s.queue == []
    ensures AllEnabled(s, [9]) && ScheduleAll(s, [9]).queue == [Wakeup(9)]
  {
    ScheduleParked(s, [9]);
    assert [9][1..] == [];
  }
}
