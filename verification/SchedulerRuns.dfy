/** What holds over whole runs of the scheduler. */
module SchedulerRuns {
  import opened Common
  import opened SchedulerMachine
  import opened SchedulerSafety

  ghost predicate RunFromStart(states: seq<State>, acts: seq<Action>, n: nat, useCaller: bool) {
    IsRun(states, acts) && states[0] == Init(n, useCaller)
  }

  lemma {:induction false} RunInv(states: seq<State>, acts: seq<Action>, n: nat, useCaller: bool, i: nat)
    requires RunFromStart(states, acts, n, useCaller) && i < |states|
    ensures Inv(states[i])
  {
    if i == 0 {
      InvInit(n, useCaller);
    } else {
      RunInv(states, acts, n, useCaller, i - 1);
      InvStep(states[i - 1], acts[i - 1]);
    }
  }

  // ---------------------------------------------------------------- one worker per fiber

  /** No two workers are taking, running or putting back the same fiber. */
  ghost predicate OneWorkerPerFiber(s: State) {
    forall v, w, f ::
      0 <= v < |s.workers| && 0 <= w < |s.workers| && Handling(s.workers[v], f) && Handling(s.workers[w], f) ==> v == w
  }

  /**
   * What `swapIn` needs: the fiber is not marked EXEC, its last swap-out has completed, and no
   * other worker has it; a recycled callback fiber is in a state that `reset` accepts.
   */
  ghost predicate SwapInSafe(s: State, w: nat)
    requires w < |s.workers| && s.workers[w].pc.Took?
  {
    match s.workers[w].pc.item.work
    case RunFiber(f) =>
      && f in s.fibers && s.fibers[f].state != EXEC && s.fibers[f].saved
      && forall v :: 0 <= v < |s.workers| && v != w ==> !Owns(s.workers[v], f)
    case RunCallback(_) =>
      s.workers[w].cbFiber.Some? ==>
        var g := s.workers[w].cbFiber.value;
        && g in s.fibers && (s.fibers[g].state == INIT || Finished(s.fibers[g].state)) && s.fibers[g].saved
        && forall v :: 0 <= v < |s.workers| && v != w ==> !Owns(s.workers[v], g)
  }

  /** The HOLD about to be written replaces the EXEC of the segment this worker has just run. */
  ghost predicate HoldSafe(s: State, w: nat)
    requires w < |s.workers| && s.workers[w].pc.MarkHold?
  {
    var f := s.workers[w].pc.fiber;
    && f in s.fibers && s.fibers[f] == Fiber(EXEC, true)
    && forall v :: 0 <= v < |s.workers| && v != w ==> !Owns(s.workers[v], f)
  }

  /** The assertions at fiber.cc:146 and 155: a fiber that yields is marked EXEC. */
  ghost predicate YieldSafe(s: State, w: nat)
    requires w < |s.workers| && s.workers[w].pc.Running?
  {
    StateOf(s, s.workers[w].pc.fiber) == EXEC
  }

  lemma ExclusiveHandling(s: State)
    requires Inv(s)
    ensures OneWorkerPerFiber(s)
  {
    forall v, w, f | 0 <= v < |s.workers| && 0 <= w < |s.workers| && Handling(s.workers[v], f)
           && Handling(s.workers[w], f)
      ensures v == w
    {
      assert Owns(s.workers[v], f) && Owns(s.workers[w], f);
    }
  }

  /** In every interleaving of any number of workers. */
  lemma FiberSafety(states: seq<State>, acts: seq<Action>, n: nat, useCaller: bool)
    requires RunFromStart(states, acts, n, useCaller)
    ensures forall i :: 0 <= i < |states| ==> OneWorkerPerFiber(states[i])
    ensures forall i :: 0 <= i < |acts| && acts[i].Start? ==> SwapInSafe(states[i], acts[i].w)
    ensures forall i :: 0 <= i < |acts| && acts[i].SetHold? ==> HoldSafe(states[i], acts[i].w)
    ensures forall i :: 0 <= i < |acts| && (acts[i].YieldToHold? || acts[i].YieldToReady?) ==>
              YieldSafe(states[i], acts[i].w)
  {
    forall i | 0 <= i < |states|
      ensures Inv(states[i]) && OneWorkerPerFiber(states[i])
    {
      RunInv(states, acts, n, useCaller, i);
      ExclusiveHandling(states[i]);
    }
    forall i | 0 <= i < |acts| && (acts[i].Start? || acts[i].SetHold? || acts[i].YieldToHold? || acts[i].YieldToReady?)
      ensures acts[i].Start? ==> SwapInSafe(states[i], acts[i].w)
      ensures acts[i].SetHold? ==> HoldSafe(states[i], acts[i].w)
      ensures acts[i].YieldToHold? || acts[i].YieldToReady? ==> YieldSafe(states[i], acts[i].w)
    {
      assert WorkerOk(states[i].workers[acts[i].w], states[i].fibers);
    }
  }

  /** `a` swaps fiber `f` in at state `s`. */
  ghost predicate SwapsIn(s: State, a: Action, f: FiberId) {
    && Enabled(s, a) && a.Start?
    && Apply(s, a).workers[a.w].pc.Running? && Apply(s, a).workers[a.w].pc.fiber == f
  }

  /**
   * Between the swap-in of a fiber by `w` and the moment `w` has put it back, nobody swaps it in:
   * the resumption that a later handle asks for always comes after the earlier segment's HOLD.
   */
  lemma NoResumptionMeanwhile(states: seq<State>, acts: seq<Action>, n: nat, useCaller: bool, i: nat, w: nat,
                              f: FiberId)
    requires RunFromStart(states, acts, n, useCaller) && i < |acts|
    requires w < |states[i].workers| && Handling(states[i].workers[w], f) && !states[i].workers[w].pc.Took?
    ensures !SwapsIn(states[i], acts[i], f)
  {
    RunInv(states, acts, n, useCaller, i);
    var s := states[i];
    if SwapsIn(s, acts[i], f) {
      assert WorkerOk(s.workers[acts[i].w], s.fibers);
      assert WorkerOk(s.workers[w], s.fibers);
      assert Owns(s.workers[w], f);
    }
  }

  // ---------------------------------------------------------------- the active count

  /** Between taking an item and the decrement that follows swapIn. */
  predicate IsActive(wk: Worker) {
    wk.pc.Took? || wk.pc.Running? || wk.pc.Switching? || wk.pc.Back?
  }

  function ActiveWorkers(ws: seq<Worker>): nat {
    if ws == [] then 0 else (if IsActive(ws[0]) then 1 else 0) + ActiveWorkers(ws[1..])
  }

  lemma {:induction false} ActiveUpdate(ws: seq<Worker>, w: nat, wk: Worker)
    requires w < |ws|
    ensures ActiveWorkers(ws[w := wk]) ==
            ActiveWorkers(ws) - (if IsActive(ws[w]) then 1 else 0) + (if IsActive(wk) then 1 else 0)
  {
    if w == 0 {
      assert ws[w := wk][1..] == ws[1..];
    } else {
      ActiveUpdate(ws[1..], w - 1, wk);
      assert ws[w := wk][1..] == ws[1..][w - 1 := wk];
    }
  }

  lemma {:induction false} NoneActive(ws: seq<Worker>)
    requires forall w :: 0 <= w < |ws| ==> !IsActive(ws[w])
    ensures ActiveWorkers(ws) == 0
  {
    if ws != [] { NoneActive(ws[1..]); }
  }

  /** A worker's action changes that worker only. */
  lemma OnlyThisWorker(s: State, a: Action)
    requires Enabled(s, a) && !a.Schedule? && !a.Stop?
    ensures |Apply(s, a).workers| == |s.workers| && a.w < |s.workers|
    ensures Apply(s, a).workers == s.workers[a.w := Apply(s, a).workers[a.w]]
  {
    match a case _ =>
  }

  /** The counter moves by one exactly when the worker enters or leaves its active phase. */
  lemma CounterFollowsWorker(s: State, a: Action)
    requires Enabled(s, a) && !a.Schedule? && !a.Stop?
    ensures a.w < |s.workers| == |Apply(s, a).workers|
    ensures Apply(s, a).active - s.active ==
            (if IsActive(Apply(s, a).workers[a.w]) then 1 else 0) - (if IsActive(s.workers[a.w]) then 1 else 0)
  {
    match a case _ =>
  }

  lemma ActiveStep(s: State, a: Action)
    requires Enabled(s, a) && s.active == ActiveWorkers(s.workers)
    ensures Apply(s, a).active == ActiveWorkers(Apply(s, a).workers)
  {
    if !a.Schedule? && !a.Stop? {
      OnlyThisWorker(s, a);
      CounterFollowsWorker(s, a);
      ActiveUpdate(s.workers, a.w, Apply(s, a).workers[a.w]);
    }
  }

  /** The counter is exact in every reachable state, so its decrements never underflow. */
  lemma {:induction false} ActiveCountExact(states: seq<State>, acts: seq<Action>, n: nat, useCaller: bool, i: nat)
    requires RunFromStart(states, acts, n, useCaller) && i < |states|
    ensures states[i].active == ActiveWorkers(states[i].workers) >= 0
  {
    if i == 0 {
      NoneActive(states[0].workers);
    } else {
      ActiveCountExact(states, acts, n, useCaller, i - 1);
      ActiveStep(states[i - 1], acts[i - 1]);
    }
  }

  // ---------------------------------------------------------------- nothing lost, callbacks in order

  predicate FreeCallback(it: Item) { it.work.RunCallback? && it.thread == -1 }

  /** The unpinned callbacks of a list of entries, in order. */
  function FreeCallbacks(q: seq<Item>): seq<Item> {
    if q == [] then []
    else FreeCallbacks(q[..|q| - 1]) + if FreeCallback(q[|q| - 1]) then [q[|q| - 1]] else []
  }

  lemma {:induction false} FreeCallbacksConcat(p: seq<Item>, q: seq<Item>)
    ensures FreeCallbacks(p + q) == FreeCallbacks(p) + FreeCallbacks(q)
  {
    if q == [] {
      assert p + q == p;
    } else {
      FreeCallbacksConcat(p, q[..|q| - 1]);
      assert (p + q)[..|p + q| - 1] == p + q[..|q| - 1];
    }
  }

  lemma {:induction false} NoFreeCallbacks(q: seq<Item>)
    requires forall i :: 0 <= i < |q| ==> !FreeCallback(q[i])
    ensures FreeCallbacks(q) == []
  {
    if q != [] { NoFreeCallbacks(q[..|q| - 1]); }
  }

  ghost predicate Conserved(s: State) {
    && multiset(s.scheduled) == multiset(s.queue) + multiset(s.taken)
    && FreeCallbacks(s.scheduled) == FreeCallbacks(s.taken) + FreeCallbacks(s.queue)
  }

  lemma PushConserves(s: State, it: Item)
    requires Conserved(s)
    ensures Conserved(Push(s, it))
  {
    FreeCallbacksConcat(s.scheduled, [it]);
    FreeCallbacksConcat(s.queue, [it]);
    Regroup(FreeCallbacks(s.taken), FreeCallbacks(s.queue), FreeCallbacks([it]));
  }

  lemma Regroup(p: seq<Item>, q: seq<Item>, r: seq<Item>)
    ensures p + (q + r) == p + q + r
  {}

  lemma Splice(pre: seq<Item>, it: Item, post: seq<Item>)
    requires FreeCallbacks(pre) == []
    ensures FreeCallbacks(pre + [it] + post) == FreeCallbacks([it]) + FreeCallbacks(pre + post)
  {
    var one := [it];
    FreeCallbacksConcat(pre + one, post);
    FreeCallbacksConcat(pre, one);
    FreeCallbacksConcat(pre, post);
  }

  /** Every unpinned callback is eligible, so none precedes the entry that a scan takes. */
  lemma TakenInOrder(q: seq<Item>, w: nat, fibers: map<FiberId, Fiber>, k: nat)
    requires k < |q| && forall i :: 0 <= i < k ==> !Eligible(q[i], w, fibers)
    ensures FreeCallbacks(q) == FreeCallbacks([q[k]]) + FreeCallbacks(RemoveAt(q, k))
  {
    var pre := q[..k];
    forall i | 0 <= i < |pre| ensures !FreeCallback(pre[i]) {
      assert !Eligible(q[i], w, fibers);
    }
    NoFreeCallbacks(pre);
    Splice(pre, q[k], q[k + 1..]);
    SplitAt(q, k);
  }

  /** Not for worker `w` now: pinned to another thread, or a fiber still marked EXEC. */
  predicate NotFor(s: State, w: nat, it: Item) {
    (it.thread != -1 && it.thread != w) || (it.work.RunFiber? && StateOf(s, it.work.fiber) == EXEC)
  }

  /** A scan takes the first entry that is for its worker, and nothing only when no entry is. */
  lemma ScanTakes(s: State, w: nat) returns (k: nat)
    requires Enabled(s, Take(w))
    ensures k <= |s.queue| && forall i :: 0 <= i < k ==> NotFor(s, w, s.queue[i])
    ensures var s' := Apply(s, Take(w));
            && w < |s'.workers|
            && if k < |s.queue| then
                 && !NotFor(s, w, s.queue[k]) && s'.workers[w].pc == Took(s.queue[k])
                 && s'.queue == s.queue[..k] + s.queue[k + 1..]
               else s'.workers[w].pc == Empty && s'.queue == s.queue
  {
    k := Scan(s.queue, w, s.fibers);
  }

  lemma SplitAt(q: seq<Item>, k: nat)
    requires k < |q|
    ensures q == q[..k] + [q[k]] + q[k + 1..] && RemoveAt(q, k) == q[..k] + q[k + 1..]
  {}

  lemma TakeConserves(s: State, w: nat)
    requires Conserved(s) && Enabled(s, Take(w))
    ensures Conserved(DoTake(s, w))
  {
    var s', k := DoTake(s, w), Scan(s.queue, w, s.fibers);
    if k < |s.queue| {
      var it := s.queue[k];
      TakenInOrder(s.queue, w, s.fibers, k);
      FreeCallbacksConcat(s.taken, [it]);
      Regroup(FreeCallbacks(s.taken), FreeCallbacks([it]), FreeCallbacks(s'.queue));
      assert multiset(s.taken + [it]) == multiset(s.taken) + multiset{it};
    }
  }

  /** Only a scan and the two kinds of push touch the queue and its history. */
  lemma QueueUntouched(s: State, a: Action)
    requires Enabled(s, a) && !a.Take? && !a.Schedule? && !a.Reschedule?
    ensures Apply(s, a).queue == s.queue && Apply(s, a).scheduled == s.scheduled && Apply(s, a).taken == s.taken
  {
    match a case _ =>
  }

  lemma ConservedStep(s: State, a: Action)
    requires Conserved(s) && Enabled(s, a)
    ensures Conserved(Apply(s, a))
  {
    match a
    case Take(w) => TakeConserves(s, w);
    case Schedule(_, it) => PushConserves(s, it);
    case Reschedule(w) => PushConserves(s, Item(RunFiber(s.workers[w].pc.fiber), -1));
    case _ => QueueUntouched(s, a);
  }

  /**
   * Entries are neither lost nor duplicated, and unpinned callbacks leave the queue in exactly
   * the order in which they entered it, whichever workers take them.
   */
  lemma {:induction false} QueueConservation(states: seq<State>, acts: seq<Action>, n: nat, useCaller: bool, i: nat)
    requires RunFromStart(states, acts, n, useCaller) && i < |states|
    ensures multiset(states[i].scheduled) == multiset(states[i].queue) + multiset(states[i].taken)
    ensures FreeCallbacks(states[i].taken) <= FreeCallbacks(states[i].scheduled)
    ensures Conserved(states[i])
  {
    if i > 0 {
      QueueConservation(states, acts, n, useCaller, i - 1);
      ConservedStep(states[i - 1], acts[i - 1]);
    }
  }

  // ---------------------------------------------------------------- draining on stop

  /** Once stop() has been called, only fibers and idle fibers on the workers schedule anything. */
  ghost predicate QuietAfterStop(states: seq<State>, acts: seq<Action>)
    requires |states| == |acts| + 1
  {
    forall i :: 0 <= i < |acts| && acts[i].Schedule? && states[i].stopRequested ==> acts[i].source.Some?
  }

  ghost predicate AllLeft(s: State) {
    forall w :: 0 <= w < |s.workers| ==> s.workers[w].pc.Left?
  }

  /** A worker that will not scan the queue again. */
  predicate Leaving(wk: Worker) { wk.pc.Left? || (wk.pc.Empty? && wk.idleTerm) }

  ghost predicate Drained(s: State) {
    && |s.workers| > 0
    && (forall w :: 0 <= w < |s.workers| && (s.workers[w].pc.Left? || s.workers[w].idleTerm) ==> s.stopRequested)
    && (AllLeaving(s) ==>
          forall i :: 0 <= i < |s.queue| ==> s.queue[i].thread != -1)
  }

  /** The scan by the last worker that is not leaving sees every unpinned entry. */
  lemma LastScan(s: State, w: nat)
    requires Inv(s) && Enabled(s, Take(w)) && Scan(s.queue, w, s.fibers) == |s.queue|
    requires forall v :: 0 <= v < |s.workers| && v != w ==> Leaving(s.workers[v])
    ensures forall i :: 0 <= i < |s.queue| ==> s.queue[i].thread != -1
  {
    // nobody is running a fiber, so no fiber is marked EXEC and the scan skipped only pinned entries
    forall v, f | 0 <= v < |s.workers| && Owns(s.workers[v], f)
      ensures s.fibers[f].state == INIT
    {
      assert WorkerOk(s.workers[v], s.fibers);
    }
    assert forall f :: f in s.fibers ==> s.fibers[f].state != EXEC;
  }

  ghost predicate AllLeaving(s: State) {
    forall w :: 0 <= w < |s.workers| ==> Leaving(s.workers[w])
  }

  lemma DrainSchedule(s: State, a: Action)
    requires Enabled(s, a) && Drained(s) && a.Schedule?
    requires s.stopRequested ==> a.source.Some?
    ensures Drained(Apply(s, a))
  {
    var w := if a.source.Some? then a.source.value else 0;
    assert !Leaving(Apply(s, a).workers[w]);
  }

  lemma DrainTake(s: State, w: nat)
    requires Inv(s) && Enabled(s, Take(w)) && Drained(s)
    ensures Drained(DoTake(s, w))
  {
    var s' := DoTake(s, w);
    if Scan(s.queue, w, s.fibers) < |s.queue| {
      assert !Leaving(s'.workers[w]);
    } else if AllLeaving(s') {
      forall v | 0 <= v < |s.workers| && v != w ensures Leaving(s.workers[v]) {
        assert s'.workers[v] == s.workers[v];
      }
      LastScan(s, w);
    }
  }

  lemma DrainIdle(s: State, w: nat, quit: bool)
    requires Enabled(s, Idle(w, quit)) && Drained(s)
    ensures Drained(DoIdle(s, w, quit))
  {
    var s' := DoIdle(s, w, quit);
    if AllLeaving(s') {
      forall v | 0 <= v < |s.workers| ensures Leaving(s.workers[v]) {
        assert Leaving(s'.workers[v]);
      }
    }
  }

  /** Every other action leaves its worker at a point from which it will scan again. */
  lemma WorkerStays(s: State, a: Action)
    requires Enabled(s, a) && !a.Schedule? && !a.Stop? && !a.Take? && !a.Idle? && !a.EnterRoot?
    ensures a.w < |Apply(s, a).workers| == |s.workers|
    ensures !Leaving(Apply(s, a).workers[a.w]) && Apply(s, a).workers[a.w].idleTerm == s.workers[a.w].idleTerm
    ensures Apply(s, a).stopRequested == s.stopRequested
  {
    match a case _ =>
  }

  lemma DrainStep(s: State, a: Action)
    requires Inv(s) && Enabled(s, a) && Drained(s)
    requires a.Schedule? && s.stopRequested ==> a.source.Some?
    ensures Drained(Apply(s, a))
  {
    match a
    case Schedule(_, _) => DrainSchedule(s, a);
    case Take(w) => DrainTake(s, w);
    case Stop =>
    case Idle(w, quit) => DrainIdle(s, w, quit);
    case EnterRoot(w, quit) => DrainEnter(s, w, quit);
    case _ => DrainOther(s, a);
  }

  lemma DrainEnter(s: State, w: nat, quit: bool)
    requires Inv(s) && Enabled(s, EnterRoot(w, quit)) && Drained(s)
    ensures Drained(Apply(s, EnterRoot(w, quit)))
  {
    var s' := Apply(s, EnterRoot(w, quit));
    assert s'.queue == [] || !Leaving(s'.workers[w]);
  }

  lemma DrainOther(s: State, a: Action)
    requires Inv(s) && Enabled(s, a) && Drained(s)
    requires !a.Schedule? && !a.Stop? && !a.Take? && !a.Idle? && !a.EnterRoot?
    ensures Drained(Apply(s, a))
  {
    OnlyThisWorker(s, a);
    WorkerStays(s, a);
  }

  lemma {:induction false} DrainInv(states: seq<State>, acts: seq<Action>, n: nat, useCaller: bool, i: nat)
    requires RunFromStart(states, acts, n, useCaller) && i < |states| && n > 0
    requires QuietAfterStop(states, acts)
    ensures Drained(states[i])
  {
    if i > 0 {
      DrainInv(states, acts, n, useCaller, i - 1);
      RunInv(states, acts, n, useCaller, i - 1);
      DrainStep(states[i - 1], acts[i - 1]);
    } else {
      assert !Leaving(states[0].workers[0]);
    }
  }

  /** When the last worker has left `run`, every entry still queued is pinned to a thread. */
  lemma StopDrainsQueue(states: seq<State>, acts: seq<Action>, n: nat, useCaller: bool, i: nat)
    requires RunFromStart(states, acts, n, useCaller) && i < |states| && n > 0
    requires QuietAfterStop(states, acts) && AllLeft(states[i])
    ensures forall k :: 0 <= k < |states[i].queue| ==> states[i].queue[k].thread != -1
  {
    DrainInv(states, acts, n, useCaller, i);
  }

  /** An idle fiber is told to stop only at rest: stop was asked for, nothing is queued, and no worker has an item. */
  lemma StopsOnlyAtRest(states: seq<State>, acts: seq<Action>, n: nat, useCaller: bool, i: nat, w: nat)
    requires RunFromStart(states, acts, n, useCaller) && i < |acts|
    requires w < |states[i].workers| == |states[i + 1].workers|
    requires !states[i].workers[w].idleTerm && states[i + 1].workers[w].idleTerm
    ensures states[i].stopRequested && states[i].queue == []
    ensures forall v :: 0 <= v < |states[i].workers| ==> !IsActive(states[i].workers[v])
  {
    ActiveCountExact(states, acts, n, useCaller, i);
    TermOnlyByIdle(states[i], acts[i], w);
    ZeroMeansNone(states[i].workers);
  }

  lemma TermOnlyByIdle(s: State, a: Action, w: nat)
    requires Enabled(s, a) && w < |s.workers| == |Apply(s, a).workers|
    requires !s.workers[w].idleTerm && Apply(s, a).workers[w].idleTerm
    ensures Stopping(s)
  {
    match a case _ =>
  }

  lemma {:induction false} ZeroMeansNone(ws: seq<Worker>)
    ensures ActiveWorkers(ws) == 0 ==> forall v :: 0 <= v < |ws| ==> !IsActive(ws[v])
  {
    if ws != [] {
      ZeroMeansNone(ws[1..]);
      assert forall v :: 1 <= v < |ws| ==> ws[v] == ws[1..][v - 1];
    }
  }

  /** A worker whose idle fiber is asked to stop when there is nothing left does leave. */
  lemma LeavesWhenStopping(s: State, w: nat) returns (states: seq<State>, acts: seq<Action>)
    requires Stopping(s) && w < |s.workers| && s.workers[w].pc.Empty?
    ensures IsRun(states, acts) && states[0] == s && |acts| <= 3
    ensures w < |states[|acts|].workers| && states[|acts|].workers[w].pc == Left
    ensures forall i :: 0 <= i < |acts| ==> acts[i] == Idle(w, true) || acts[i] == Take(w)
  {
    var s1 := Apply(s, Idle(w, true));
    states, acts := [s, s1], [Idle(w, true)];
    if !s.workers[w].idleTerm {
      var s2 := Apply(s1, Take(w));
      states, acts := [s, s1, s2, Apply(s2, Idle(w, true))], [Idle(w, true), Take(w), Idle(w, true)];
    }
  }
}
