/** A run of one sleep on two workers, up to the moment its callback is about to wake it. */
module SleepScheduleRuns {
  import opened Common
  import opened TimerSet
  import opened TimerRuns
  import opened SleepSchedule
  import T = TimerWorld
  import HS = HookSchedule
  import S = SchedulerMachine

  ghost predicate Reachable(s: State, start: nat) {
    exists states, acts :: RunFrom(Init(2, false, start), states, acts) && states[|acts|] == s
  }

  lemma ReachStep(s: State, a: Action, start: nat)
    requires Reachable(s, start) && Enabled(s, a)
    ensures Reachable(Apply(s, a), start)
  {
    var states, acts :| RunFrom(Init(2, false, start), states, acts) && states[|acts|] == s;
    RunOn(Init(2, false, start), states, acts, a);
    assert (states + [Apply(s, a)])[|acts + [a]|] == Apply(s, a);
  }

  lemma RunOn(s: State, states: seq<State>, acts: seq<Action>, a: Action)
    requires RunFrom(s, states, acts) && Enabled(states[|acts|], a)
    ensures RunFrom(s, states + [Apply(states[|acts|], a)], acts + [a])
  {
    var states', acts' := states + [Apply(states[|acts|], a)], acts + [a];
    forall i | 0 <= i < |acts'| ensures Enabled(states'[i], acts'[i]) && states'[i + 1] == Apply(states'[i], acts'[i]) {
      if i < |acts| { assert Enabled(states[i], acts[i]) && states[i + 1] == Apply(states[i], acts[i]); }
    }
  }

  /** A step of the worker loop that schedules nothing, while no blocking call is being made. */
  lemma ReachSched(s: State, b: S.Action, start: nat)
    requires Reachable(s, start) && s.joint.fiberOf == [] && S.Enabled(s.joint.sched, b)
    requires b.Schedule? ==> s.sleeper == map[]
    ensures Reachable(OnSched(s, S.Apply(s.joint.sched, b)), start)
  {
    assert Enabled(s, Other(HS.SchedStep(b)));
    ReachStep(s, Other(HS.SchedStep(b)), start);
  }

  // ---------------------------------------------------------------- the scheduler's part

  /** Two workers: `p` and `q` are where they are, and the second one's callback fiber is `cb`. */
  function Two(p: S.Pc, q: S.Pc, cb: Option<S.FiberId>): seq<S.Worker> {
    [S.Worker(p, None, false), S.Worker(q, cb, false)]
  }

  function Mine(parked: bool): S.Pc { S.Running(9, false, parked) }

  function Asleep9(queue: seq<S.Item>, q: S.Pc, scheduled: seq<S.Item>, taken: seq<S.Item>, active: nat): S.State {
    S.State(queue, map[9 := S.Fiber(S.EXEC, false)], {9}, Two(Mine(true), q, None), active, false, scheduled, taken)
  }

  /** Fiber 9 runs on the first worker and the second one has nothing to do. */
  function Awake9(): S.State {
    Asleep9([], S.Empty, [HS.Wakeup(9)], [HS.Wakeup(9)], 1).(parked := {}, workers := Two(Mine(false), S.Empty, None))
  }

  function Queued9(): S.State {
    S.State([HS.Wakeup(9)], map[9 := S.Fiber(S.INIT, true)], {}, Two(S.Top, S.Top, None), 0, false, [HS.Wakeup(9)], [])
  }

  function Taken9(): S.State {
    S.State([], map[9 := S.Fiber(S.INIT, true)], {}, Two(S.Took(HS.Wakeup(9)), S.Top, None), 1, false,
            [HS.Wakeup(9)], [HS.Wakeup(9)])
  }

  lemma NineIsQueued()
    ensures S.Enabled(S.Init(2, false), S.Schedule(None, HS.Wakeup(9)))
    ensures S.Apply(S.Init(2, false), S.Schedule(None, HS.Wakeup(9))) == Queued9()
  {
    assert S.Init(2, false).workers == Two(S.Top, S.Top, None);
  }

  lemma NineIsTaken()
    ensures S.Enabled(Queued9(), S.Take(0)) && S.Apply(Queued9(), S.Take(0)) == Taken9()
  {
    assert S.Scan(Queued9().queue, 0, Queued9().fibers) == 0;
    assert RemoveAt(Queued9().queue, 0) == [];
  }

  lemma NineStarts()
    ensures S.Enabled(Taken9(), S.Start(0, 10))
    ensures var s := S.Apply(Taken9(), S.Start(0, 10)); S.Enabled(s, S.Take(1)) && S.Apply(s, S.Take(1)) == Awake9()
  {
    assert map[9 := S.Fiber(S.INIT, true)][9 := S.Fiber(S.EXEC, false)] == map[9 := S.Fiber(S.EXEC, false)];
  }

  function Handed(c: nat): S.State {
    Asleep9([Callback(c)], S.Empty, [HS.Wakeup(9), Callback(c)], [HS.Wakeup(9)], 1)
  }

  /** The idle worker goes back to the queue, takes the callback and runs it. */
  lemma CallbackRuns(c: nat) returns (s1: S.State, s2: S.State, s3: S.State)
    ensures S.Enabled(Handed(c), S.Idle(1, false)) && s1 == S.Apply(Handed(c), S.Idle(1, false))
    ensures S.Enabled(s1, S.Take(1)) && s2 == S.Apply(s1, S.Take(1))
    ensures S.Enabled(s2, S.Start(1, 11)) && s3 == S.Apply(s2, S.Start(1, 11))
    ensures RunsCallback(s3, 1) && s3.workers[0].pc == Mine(true)
    ensures s3.taken == [HS.Wakeup(9), Callback(c)] && s3.queue == []
  {
    s1 := S.Apply(Handed(c), S.Idle(1, false));
    assert S.Scan(s1.queue, 1, s1.fibers) == 0;
    s2 := S.Apply(s1, S.Take(1));
    s3 := S.Apply(s2, S.Start(1, 11));
  }

  // ---------------------------------------------------------------- the run

  lemma FiberRuns(start: nat) returns (s: State)
    ensures Reachable(s, start) && s == OnSched(Init(2, false, start), Awake9())
  {
    s := Init(2, false, start);
    var none: seq<Action> := [];
    assert RunFrom(s, [s], none) && [s][|none|] == s;
    NineIsQueued();
    ReachSched(s, S.Schedule(None, HS.Wakeup(9)), start);
    NineIsTaken();
    ReachSched(OnSched(s, Queued9()), S.Take(0), start);
    NineStarts();
    ReachSched(OnSched(s, Taken9()), S.Start(0, 10), start);
    ReachSched(OnSched(s, S.Apply(Taken9(), S.Start(0, 10))), S.Take(1), start);
    s := OnSched(s, Awake9());
  }

  /** It sleeps for no time at all. */
  lemma FiberSleeps(start: nat) returns (s: State)
    requires start < TWO64
    ensures Reachable(s, start) && s.sleeper == map[7 := 9] && s.woken == multiset{}
    ensures s.joint.fiberOf == [] && s.joint.sched == Asleep9([], S.Empty, [HS.Wakeup(9)], [HS.Wakeup(9)], 1)
    ensures Known(s.timers.m.order, s.timers.m.recs) && Expires(s.timers.m, start, 7)
  {
    s := FiberRuns(start);
    var a := Sleep(0, 7, 0, start);
    assert Enabled(s, a);
    ReachStep(s, a, start);
    Due(s.timers, start);
    s := Apply(s, a);
  }

  lemma Due(w: T.World, start: nat)
    requires w == T.Init(start) && start < TWO64
    ensures var m := T.Apply(w, T.Add(7, 0, Some(7), false, start)).m;
            Known(m.order, m.recs) && Expires(m, start, 7)
  {
    AddKeeps(w.m, 7, 0, Some(7), false, start);
  }

  /** The other worker finds the timer expired and schedules its callback. */
  lemma SleepExpires(start: nat) returns (s: State)
    requires start < TWO64
    ensures Reachable(s, start) && s.sleeper == map[7 := 9] && s.woken == multiset{}
    ensures s.joint.fiberOf == [] && s.joint.sched == Handed(7)
  {
    s := FiberSleeps(start);
    s := Collected(s, start);
    assert Enabled(s, Hand(1, 7));
    ReachStep(s, Hand(1, 7), start);
    s := Apply(s, Hand(1, 7));
  }

  lemma Collected(s: State, start: nat) returns (s': State)
    requires Reachable(s, start) && 7 in s.sleeper && IdleOn(s.joint.sched, 1)
    requires Known(s.timers.m.order, s.timers.m.recs) && Expires(s.timers.m, start, 7)
    ensures Reachable(s', start) && s'.sleeper == s.sleeper && s'.woken == s.woken && s'.joint == s.joint
            && s'.collected[7] > 0
  {
    var a := Collect(1, start, 0);
    assert Enabled(s, a);
    ReachableInv(s, start);
    CollectedWhenDue(s, 1, start, 0, 7);
    ReachStep(s, a, start);
    s' := Apply(s, a);
  }

  lemma ReachableInv(s: State, start: nat)
    requires Reachable(s, start)
    ensures Inv(s)
  {
    var states, acts :| RunFrom(Init(2, false, start), states, acts) && states[|acts|] == s;
    RunInv(states, acts, 2, false, start, |acts|);
  }

  lemma WorkerRuns(s: State, start: nat) returns (s': State)
    requires Reachable(s, start) && s.joint.fiberOf == [] && s.joint.sched == Handed(7)
    ensures Reachable(s', start) && s' == OnSched(s, s'.joint.sched)
    ensures RunsCallback(s'.joint.sched, 1) && s'.joint.sched.workers[0].pc == Mine(true)
    ensures s'.joint.sched.taken == [HS.Wakeup(9), Callback(7)] && s'.joint.sched.queue == []
  {
    var s1, s2, s3 := CallbackRuns(7);
    ReachSched(s, S.Idle(1, false), start);
    ReachSched(OnSched(s, s1), S.Take(1), start);
    ReachSched(OnSched(s, s2), S.Start(1, 11), start);
    s' := OnSched(s, s3);
  }

  /** The callback is about to run while the sleeper has not even yielded: its handle will be queued, once. */
  lemma WokenBeforeYielding(start: nat) returns (s: State)
    requires start < TWO64
    ensures Reachable(s, start) && s.sleeper == map[7 := 9] && Enabled(s, Wake(1, 7))
    ensures |s.joint.sched.workers| > 0 && s.joint.sched.workers[0].pc == S.Running(9, false, true)
    ensures s.joint.sched.queue == [] && Apply(s, Wake(1, 7)).joint.sched.queue == [HS.Wakeup(9)]
  {
    s := SleepExpires(start);
    s := WorkerRuns(s, start);
  }
}
