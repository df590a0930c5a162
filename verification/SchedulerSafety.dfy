/**
 * Safety of the worker loop over every interleaving: a fiber is never on two workers, never
 * swapped in before its previous swap-out completed, and never has its EXEC mark overwritten by
 * the worker that ran an earlier segment of it.
 */
module SchedulerSafety {
  import opened Common
  import opened SchedulerMachine

  // ---------------------------------------------------------------- the invariant

  ghost predicate AfterRun(st: FiberState) { st == EXEC || st == READY || Finished(st) }

  /** What a worker's program counter says about the fibers it owns. */
  ghost predicate WorkerOk(wk: Worker, fibers: map<FiberId, Fiber>) {
    && (match wk.pc
        case Took(it) =>
          it.work.RunFiber? ==>
            && it.work.fiber in fibers && fibers[it.work.fiber].saved
            && fibers[it.work.fiber].state != EXEC && wk.cbFiber != Some(it.work.fiber)
        case Running(f, cb, _) => f in fibers && fibers[f] == Fiber(EXEC, false) && (cb <==> wk.cbFiber == Some(f))
        case Switching(f, cb) =>
          f in fibers && !fibers[f].saved && AfterRun(fibers[f].state) && (cb <==> wk.cbFiber == Some(f))
        case Back(f, cb) =>
          f in fibers && fibers[f].saved && AfterRun(fibers[f].state) && (cb <==> wk.cbFiber == Some(f))
        case Post(f, cb) =>
          f in fibers && fibers[f].saved && AfterRun(fibers[f].state) && (cb <==> wk.cbFiber == Some(f))
        case Requeue(f, cb) => f in fibers && fibers[f] == Fiber(READY, true) && (cb <==> wk.cbFiber == Some(f))
        case MarkHold(f, cb) => f in fibers && fibers[f] == Fiber(EXEC, true) && (cb <==> wk.cbFiber == Some(f))
        case _ => true)
    && (wk.cbFiber.Some? && !Handling(wk, wk.cbFiber.value) ==>
          wk.cbFiber.value in fibers && fibers[wk.cbFiber.value] == Fiber(INIT, true))
  }

  ghost predicate WorkersOk(s: State) {
    forall w :: 0 <= w < |s.workers| ==> WorkerOk(s.workers[w], s.fibers)
  }

  /** No fiber belongs to two workers. */
  ghost predicate Exclusive(ws: seq<Worker>) {
    forall i, j, f :: 0 <= i < |ws| && 0 <= j < |ws| && Owns(ws[i], f) && Owns(ws[j], f) ==> i == j
  }

  /** A fiber with a handle outside the workers may be owned only while it is still marked EXEC. */
  ghost predicate Compatible(wk: Worker, f: FiberId, fibers: map<FiberId, Fiber>) {
    Owns(wk, f) ==> f in fibers && fibers[f].state == EXEC && (wk.pc.Running? ==> wk.pc.parked)
  }

  /** At most one handle per fiber, in the queue or parked. */
  ghost predicate HandlesOk(s: State) {
    && (forall i, j :: 0 <= i < |s.queue| && 0 <= j < |s.queue| && s.queue[i].work.RunFiber? ==>
          (s.queue[i].work == s.queue[j].work ==> i == j))
    && (forall i :: 0 <= i < |s.queue| && s.queue[i].work.RunFiber? ==>
          s.queue[i].work.fiber in s.fibers && s.queue[i].work.fiber !in s.parked)
    && s.parked <= s.fibers.Keys
    && (forall i, w :: 0 <= i < |s.queue| && 0 <= w < |s.workers| && s.queue[i].work.RunFiber? ==>
          Compatible(s.workers[w], s.queue[i].work.fiber, s.fibers))
    && (forall f, w :: f in s.parked && 0 <= w < |s.workers| ==> Compatible(s.workers[w], f, s.fibers))
  }

  /** A fiber that is marked EXEC, or whose context is not saved, is on some worker. */
  ghost predicate BusyOwned(s: State) {
    forall f :: f in s.fibers && (s.fibers[f].state == EXEC || !s.fibers[f].saved) ==> OwnedBySome(s, f)
  }

  ghost predicate Inv(s: State) {
    WorkersOk(s) && Exclusive(s.workers) && HandlesOk(s) && BusyOwned(s)
  }

  // ---------------------------------------------------------------- preservation

  lemma InvInit(n: nat, useCaller: bool)
    ensures Inv(Init(n, useCaller))
  {}

  /** An owned fiber exists, and no other worker's well-formedness depends on it. */
  lemma OwnedElsewhere(s: State, w: nat, f: FiberId, fibers': map<FiberId, Fiber>)
    requires Inv(s) && w < |s.workers|
    requires Owns(s.workers[w], f) || f !in s.fibers
    requires forall g :: g in s.fibers && g != f ==> g in fibers' && fibers'[g] == s.fibers[g]
    ensures forall v :: 0 <= v < |s.workers| && v != w ==> WorkerOk(s.workers[v], fibers') && !Owns(s.workers[v], f)
  {
    forall v | 0 <= v < |s.workers| && v != w
      ensures WorkerOk(s.workers[v], fibers') && !Owns(s.workers[v], f)
    {
      assert WorkerOk(s.workers[v], s.fibers);
    }
  }

  ghost predicate Busy(fibers: map<FiberId, Fiber>, f: FiberId) {
    f in fibers && (fibers[f].state == EXEC || !fibers[f].saved)
  }

  /**
   * A step of worker `w` that writes only fiber `f`, which `w` owns or has just created; `w` itself
   * ends up well-formed and gives up only fibers at rest.
   */
  ghost predicate LocalMove(s: State, s': State, w: nat, f: FiberId) {
    && w < |s.workers| == |s'.workers|
    && (forall v :: 0 <= v < |s.workers| && v != w ==> s'.workers[v] == s.workers[v])
    && (Owns(s.workers[w], f) || f !in s.fibers)
    && (forall g :: g != f ==> (g in s'.fibers <==> g in s.fibers))
    && (forall g :: g != f && g in s.fibers ==> s'.fibers[g] == s.fibers[g])
    && (f in s.fibers ==> f in s'.fibers)
    && WorkerOk(s'.workers[w], s'.fibers)
    && (forall g :: Owns(s'.workers[w], g) ==> g == f || Owns(s.workers[w], g))
    && (forall g :: Busy(s'.fibers, g) && (g == f || Owns(s.workers[w], g)) ==> Owns(s'.workers[w], g))
  }

  /** The handles are untouched, and whatever `w` owns may keep the handle it had. */
  ghost predicate KeepsHandles(s: State, s': State, w: nat)
    requires w < |s.workers| == |s'.workers|
  {
    && s'.queue == s.queue && s'.parked == s.parked
    && forall g :: HasHandle(s, g) && Owns(s'.workers[w], g) && Compatible(s.workers[w], g, s.fibers) ==>
         Compatible(s'.workers[w], g, s'.fibers)
  }

  /** Then the whole scheduler is well-formed, up to the handles. */
  lemma LocalStep(s: State, s': State, w: nat, f: FiberId)
    requires Inv(s) && LocalMove(s, s', w, f)
    ensures WorkersOk(s') && Exclusive(s'.workers) && BusyOwned(s')
  {
    OwnedElsewhere(s, w, f, s'.fibers);
    forall g | Busy(s'.fibers, g)
      ensures OwnedBySome(s', g)
    {
      if !Owns(s'.workers[w], g) {
        assert g != f && Busy(s.fibers, g);
        var v :| 0 <= v < |s.workers| && Owns(s.workers[v], g);
        assert Owns(s'.workers[v], g);
      }
    }
  }

  lemma SameHandles(s: State, s': State, w: nat, f: FiberId)
    requires Inv(s) && LocalMove(s, s', w, f) && KeepsHandles(s, s', w)
    ensures HandlesOk(s')
  {
    OwnedElsewhere(s, w, f, s'.fibers);
    forall g, v | HasHandle(s, g) && 0 <= v < |s'.workers|
      ensures Compatible(s'.workers[v], g, s'.fibers)
    {
      assert Compatible(s.workers[v], g, s.fibers);
      if v != w && Owns(s.workers[v], g) { assert g != f; }
    }
    forall i, v | 0 <= i < |s'.queue| && 0 <= v < |s'.workers| && s'.queue[i].work.RunFiber?
      ensures Compatible(s'.workers[v], s'.queue[i].work.fiber, s'.fibers)
    {
      assert HasHandle(s, s.queue[i].work.fiber);
    }
  }

  lemma LocalInv(s: State, s': State, w: nat, f: FiberId)
    requires Inv(s) && LocalMove(s, s', w, f) && KeepsHandles(s, s', w)
    ensures Inv(s')
  {
    LocalStep(s, s', w, f);
    SameHandles(s, s', w, f);
  }

  lemma InvSchedule(s: State, it: Item)
    requires Inv(s) && Enabled(s, Schedule(None, it))
    ensures Inv(DoSchedule(s, it))
  {
    var s' := DoSchedule(s, it);
    assert s'.workers == s.workers;
    ScheduleWorkers(s, it);
    ScheduleHandles(s, it);
  }

  lemma ScheduleWorkers(s: State, it: Item)
    requires Inv(s) && Enabled(s, Schedule(None, it))
    ensures var s' := DoSchedule(s, it); WorkersOk(s') && Exclusive(s'.workers) && BusyOwned(s')
  {
    var s' := DoSchedule(s, it);
    forall f | f in s'.fibers && (s'.fibers[f].state == EXEC || !s'.fibers[f].saved)
      ensures OwnedBySome(s', f)
    {
      assert OwnedBySome(s, f);
    }
  }

  lemma ScheduleHandles(s: State, it: Item)
    requires Inv(s) && Enabled(s, Schedule(None, it))
    ensures HandlesOk(DoSchedule(s, it))
  {
    var s' := DoSchedule(s, it);
    forall i, w | 0 <= i < |s'.queue| && 0 <= w < |s'.workers| && s'.queue[i].work.RunFiber?
      ensures Compatible(s'.workers[w], s'.queue[i].work.fiber, s'.fibers)
    {
      if i < |s.queue| { assert Compatible(s.workers[w], s.queue[i].work.fiber, s.fibers); }
    }
  }

  /** Removing the taken entry keeps the handles of the others; nobody owned the taken fiber. */
  lemma TakeHandles(s: State, s': State, w: nat, k: nat)
    requires Inv(s) && w < |s.workers| && k < |s.queue| && Eligible(s.queue[k], w, s.fibers)
    requires s'.workers == s.workers[w := s.workers[w].(pc := Took(s.queue[k]))]
    requires s.workers[w].pc.Top?
    requires s'.queue == RemoveAt(s.queue, k) && s'.parked == s.parked && s'.fibers == s.fibers
    ensures HandlesOk(s')
  {
    forall i, v | 0 <= i < |s'.queue| && 0 <= v < |s'.workers| && s'.queue[i].work.RunFiber?
      ensures Compatible(s'.workers[v], s'.queue[i].work.fiber, s'.fibers)
    {
      var j := if i < k then i else i + 1;
      assert Compatible(s.workers[v], s.queue[j].work.fiber, s.fibers);
    }
    forall g, v | g in s'.parked && 0 <= v < |s'.workers|
      ensures Compatible(s'.workers[v], g, s'.fibers)
    {
      assert Compatible(s.workers[v], g, s.fibers);
    }
    forall i, j | 0 <= i < |s'.queue| && 0 <= j < |s'.queue| && s'.queue[i].work.RunFiber?
           && s'.queue[i].work == s'.queue[j].work
      ensures i == j
    {
      var i0, j0 := if i < k then i else i + 1, if j < k then j else j + 1;
      assert s.queue[i0].work == s.queue[j0].work;
    }
  }

  lemma InvTake(s: State, w: nat)
    requires Inv(s) && Enabled(s, Take(w))
    ensures Inv(DoTake(s, w))
  {
    var s' := DoTake(s, w);
    var k := Scan(s.queue, w, s.fibers);
    assert WorkerOk(s.workers[w], s.fibers);
    if k < |s.queue| {
      TakeHandles(s, s', w, k);
      if s.queue[k].work.RunFiber? {
        var f := s.queue[k].work.fiber;
        forall v | 0 <= v < |s.workers| ensures !Owns(s.workers[v], f) {
          assert Compatible(s.workers[v], f, s.fibers);
        }
        assert !Busy(s.fibers, f);
      }
    } else {
      forall i, v | 0 <= i < |s'.queue| && 0 <= v < |s'.workers| && s'.queue[i].work.RunFiber?
        ensures Compatible(s'.workers[v], s'.queue[i].work.fiber, s'.fibers)
      {
        assert Compatible(s.workers[v], s.queue[i].work.fiber, s.fibers);
      }
      forall g, v | g in s'.parked && 0 <= v < |s'.workers|
        ensures Compatible(s'.workers[v], g, s'.fibers)
      {
        assert Compatible(s.workers[v], g, s.fibers);
      }
    }
    forall g | Busy(s'.fibers, g)
      ensures OwnedBySome(s', g)
    {
      var v :| 0 <= v < |s.workers| && Owns(s.workers[v], g);
      assert Owns(s'.workers[v], g);
    }
  }

  function Started(s: State, w: nat, unused: FiberId): FiberId
    requires w < |s.workers| && s.workers[w].pc.Took?
  {
    match s.workers[w].pc.item.work
    case RunFiber(f) => f
    case RunCallback(_) => if s.workers[w].cbFiber.Some? then s.workers[w].cbFiber.value else unused
  }

  lemma StartMoves(s: State, w: nat, unused: FiberId)
    requires Enabled(s, Start(w, unused)) && WorkerOk(s.workers[w], s.fibers)
    requires forall g :: HasHandle(s, g) ==> g in s.fibers
    ensures var s' := DoStart(s, w, unused);
            LocalMove(s, s', w, Started(s, w, unused)) && KeepsHandles(s, s', w)
  {
    if s.workers[w].pc.item.work.RunFiber? { StartFiber(s, w, unused); } else { StartCallback(s, w, unused); }
  }

  lemma StartFiber(s: State, w: nat, unused: FiberId)
    requires Enabled(s, Start(w, unused)) && WorkerOk(s.workers[w], s.fibers) && s.workers[w].pc.item.work.RunFiber?
    ensures var s' := DoStart(s, w, unused);
            LocalMove(s, s', w, Started(s, w, unused)) && KeepsHandles(s, s', w)
  {}

  lemma StartCallback(s: State, w: nat, unused: FiberId)
    requires Enabled(s, Start(w, unused)) && WorkerOk(s.workers[w], s.fibers) && s.workers[w].pc.item.work.RunCallback?
    requires forall g :: HasHandle(s, g) ==> g in s.fibers
    ensures var s' := DoStart(s, w, unused);
            LocalMove(s, s', w, Started(s, w, unused)) && KeepsHandles(s, s', w)
  {}

  lemma InvStart(s: State, w: nat, unused: FiberId)
    requires Inv(s) && Enabled(s, Start(w, unused))
    ensures Inv(DoStart(s, w, unused))
  {
    assert WorkerOk(s.workers[w], s.fibers);
    StartMoves(s, w, unused);
    LocalInv(s, DoStart(s, w, unused), w, Started(s, w, unused));
  }

  lemma LeaveMoves(s: State, a: Action)
    requires Enabled(s, a) && (a.YieldToHold? || a.YieldToReady? || a.Finish? || a.SwapOut? || a.Decrement?)
    requires WorkerOk(s.workers[a.w], s.fibers)
    ensures var s' := Apply(s, a);
            LocalMove(s, s', a.w, s.workers[a.w].pc.fiber) && KeepsHandles(s, s', a.w)
  {
    if a.SwapOut? { SwapOutMoves(s, a); }
    else if a.YieldToHold? || a.Decrement? { PcMoves(s, a); }
    else { StateMoves(s, a); }
  }

  /** Only the program counter moves. */
  lemma PcMoves(s: State, a: Action)
    requires Enabled(s, a) && (a.YieldToHold? || a.Decrement?) && WorkerOk(s.workers[a.w], s.fibers)
    ensures var s' := Apply(s, a);
            LocalMove(s, s', a.w, s.workers[a.w].pc.fiber) && KeepsHandles(s, s', a.w)
  {}

  /** The fiber writes its own state before it leaves. */
  lemma StateMoves(s: State, a: Action)
    requires Enabled(s, a) && (a.YieldToReady? || a.Finish?) && WorkerOk(s.workers[a.w], s.fibers)
    ensures var s' := Apply(s, a);
            LocalMove(s, s', a.w, s.workers[a.w].pc.fiber) && KeepsHandles(s, s', a.w)
  {}

  lemma SwapOutMoves(s: State, a: Action)
    requires Enabled(s, a) && a.SwapOut? && WorkerOk(s.workers[a.w], s.fibers)
    ensures var s' := Apply(s, a);
            LocalMove(s, s', a.w, s.workers[a.w].pc.fiber) && KeepsHandles(s, s', a.w)
  {}

  /** Steps taken on the fiber's own stack, its swap-out, and the decrement that follows. */
  lemma InvLeaveFiber(s: State, a: Action)
    requires Inv(s) && Enabled(s, a)
    requires a.YieldToHold? || a.YieldToReady? || a.Finish? || a.SwapOut? || a.Decrement?
    ensures Inv(Apply(s, a))
  {
    assert WorkerOk(s.workers[a.w], s.fibers);
    LeaveMoves(s, a);
    LocalInv(s, Apply(s, a), a.w, s.workers[a.w].pc.fiber);
  }

  lemma InvPark(s: State, w: nat)
    requires Inv(s) && Enabled(s, Park(w))
    ensures Inv(Apply(s, Park(w)))
  {
    var s' := Apply(s, Park(w));
    assert WorkerOk(s.workers[w], s.fibers);
    var f := s.workers[w].pc.fiber;
    LocalStep(s, s', w, f);
    // the segment had not parked, so its fiber had no handle
    assert !Queued(s.queue, f) by {
      assert forall i :: 0 <= i < |s.queue| && s.queue[i].work.RunFiber? ==>
               Compatible(s.workers[w], s.queue[i].work.fiber, s.fibers);
    }
    forall g, v | g in s'.parked && 0 <= v < |s'.workers|
      ensures Compatible(s'.workers[v], g, s'.fibers)
    {
      if g != f { assert Compatible(s.workers[v], g, s.fibers); }
    }
    forall i, v | 0 <= i < |s'.queue| && 0 <= v < |s'.workers| && s'.queue[i].work.RunFiber?
      ensures Compatible(s'.workers[v], s'.queue[i].work.fiber, s'.fibers)
    {
      assert Compatible(s.workers[v], s.queue[i].work.fiber, s.fibers);
    }
  }

  lemma InspectMoves(s: State, w: nat)
    requires Enabled(s, Inspect(w)) && WorkerOk(s.workers[w], s.fibers)
    ensures var s' := DoInspect(s, w);
            LocalMove(s, s', w, s.workers[w].pc.fiber) && KeepsHandles(s, s', w)
  {
    if Finished(StateOf(s, s.workers[w].pc.fiber)) { InspectFinished(s, w); } else { InspectGoesOn(s, w); }
  }

  lemma InspectFinished(s: State, w: nat)
    requires Enabled(s, Inspect(w)) && WorkerOk(s.workers[w], s.fibers) && Finished(StateOf(s, s.workers[w].pc.fiber))
    ensures var s' := DoInspect(s, w);
            LocalMove(s, s', w, s.workers[w].pc.fiber) && KeepsHandles(s, s', w)
  {}

  lemma InspectGoesOn(s: State, w: nat)
    requires Enabled(s, Inspect(w)) && WorkerOk(s.workers[w], s.fibers) && !Finished(StateOf(s, s.workers[w].pc.fiber))
    ensures var s' := DoInspect(s, w);
            LocalMove(s, s', w, s.workers[w].pc.fiber) && KeepsHandles(s, s', w)
  {}

  lemma InvInspect(s: State, w: nat)
    requires Inv(s) && Enabled(s, Inspect(w))
    ensures Inv(DoInspect(s, w))
  {
    assert WorkerOk(s.workers[w], s.fibers);
    InspectMoves(s, w);
    LocalInv(s, DoInspect(s, w), w, s.workers[w].pc.fiber);
  }

  lemma SetHoldMoves(s: State, w: nat)
    requires Enabled(s, SetHold(w)) && WorkerOk(s.workers[w], s.fibers)
    ensures var s' := Apply(s, SetHold(w));
            LocalMove(s, s', w, s.workers[w].pc.fiber) && KeepsHandles(s, s', w)
  {}

  lemma InvSetHold(s: State, w: nat)
    requires Inv(s) && Enabled(s, SetHold(w))
    ensures Inv(Apply(s, SetHold(w)))
  {
    assert WorkerOk(s.workers[w], s.fibers);
    SetHoldMoves(s, w);
    LocalInv(s, Apply(s, SetHold(w)), w, s.workers[w].pc.fiber);
  }

  lemma InvReschedule(s: State, w: nat)
    requires Inv(s) && Enabled(s, Reschedule(w))
    ensures Inv(Apply(s, Reschedule(w)))
  {
    var f, cb := s.workers[w].pc.fiber, s.workers[w].pc.cb;
    assert WorkerOk(s.workers[w], s.fibers);
    // marked READY, so the fiber had no handle and is now owned by nobody
    assert !HasHandle(s, f) by { assert HasHandle(s, f) ==> Compatible(s.workers[w], f, s.fibers); }
    ReleaseMoves(s, w, cb);
    LocalInv(s, Release(s, w, cb), w, f);
    OwnedElsewhere(s, w, f, s.fibers);
    PushInv(Release(s, w, cb), f);
    assert Apply(s, Reschedule(w)) == Push(Release(s, w, cb), Item(RunFiber(f), -1));
  }

  lemma ReleaseMoves(s: State, w: nat, cb: bool)
    requires w < |s.workers| && s.workers[w].pc.Requeue? && s.workers[w].pc.cb == cb && WorkerOk(s.workers[w], s.fibers)
    requires !HasHandle(s, s.workers[w].pc.fiber)
    ensures var s' := Release(s, w, cb);
            && LocalMove(s, s', w, s.workers[w].pc.fiber) && KeepsHandles(s, s', w)
            && !Owns(s'.workers[w], s.workers[w].pc.fiber)
  {}

  /** A fiber that nobody owns and that has no handle may be queued. */
  lemma PushInv(s: State, f: FiberId)
    requires Inv(s) && f in s.fibers && !HasHandle(s, f) && forall v :: 0 <= v < |s.workers| ==> !Owns(s.workers[v], f)
    ensures Inv(Push(s, Item(RunFiber(f), -1)))
  {
    var s' := Push(s, Item(RunFiber(f), -1));
    forall g | Busy(s'.fibers, g) ensures OwnedBySome(s', g) {
      assert OwnedBySome(s, g);
    }
    forall i | 0 <= i < |s.queue| ensures s.queue[i].work != RunFiber(f) {
      assert s.queue[i].work == RunFiber(f) ==> Queued(s.queue, f);
    }
    forall i, v | 0 <= i < |s'.queue| && 0 <= v < |s'.workers| && s'.queue[i].work.RunFiber?
      ensures Compatible(s'.workers[v], s'.queue[i].work.fiber, s'.fibers)
    {
      if i < |s.queue| { assert Compatible(s.workers[v], s.queue[i].work.fiber, s.fibers); }
    }
  }

  lemma InvIdle(s: State, a: Action)
    requires Inv(s) && Enabled(s, a) && (a.Idle? || a.EnterRoot?)
    ensures Inv(Apply(s, a))
  {
    assert WorkerOk(s.workers[a.w], s.fibers);
    IdleMoves(s, a);
    SameOwners(s, Apply(s, a), a.w);
  }

  /** These steps move one worker between points at which it handles no fiber. */
  lemma IdleMoves(s: State, a: Action)
    requires Enabled(s, a) && (a.Idle? || a.EnterRoot?) && WorkerOk(s.workers[a.w], s.fibers)
    ensures var s' := Apply(s, a);
            && s'.fibers == s.fibers && s'.queue == s.queue && s'.parked == s.parked
            && a.w < |s.workers| && s'.workers == s.workers[a.w := s'.workers[a.w]]
            && WorkerOk(s'.workers[a.w], s.fibers) && !s'.workers[a.w].pc.Running?
            && forall g :: Owns(s'.workers[a.w], g) <==> Owns(s.workers[a.w], g)
  {
    match a case _ =>
  }

  lemma SameOwners(s: State, s': State, w: nat)
    requires Inv(s) && s'.fibers == s.fibers && s'.queue == s.queue && s'.parked == s.parked
    requires w < |s.workers| == |s'.workers| && s'.workers == s.workers[w := s'.workers[w]]
    requires WorkerOk(s'.workers[w], s.fibers) && !s'.workers[w].pc.Running?
    requires forall g :: Owns(s'.workers[w], g) <==> Owns(s.workers[w], g)
    ensures Inv(s')
  {
    forall v, g | 0 <= v < |s.workers| ensures Owns(s'.workers[v], g) <==> Owns(s.workers[v], g) {}
    forall g | Busy(s'.fibers, g) ensures OwnedBySome(s', g) {
      var v :| 0 <= v < |s.workers| && Owns(s.workers[v], g);
      assert Owns(s'.workers[v], g);
    }
    forall v, g | 0 <= v < |s.workers| && HasHandle(s, g) ensures Compatible(s'.workers[v], g, s'.fibers) {
      assert Compatible(s.workers[v], g, s.fibers);
    }
    forall i | 0 <= i < |s.queue| && s.queue[i].work.RunFiber? ensures HasHandle(s, s.queue[i].work.fiber) {
      assert Queued(s.queue, s.queue[i].work.fiber);
    }
  }

  lemma InvStep(s: State, a: Action)
    requires Inv(s) && Enabled(s, a)
    ensures Inv(Apply(s, a))
  {
    match a
    case Schedule(_, item) => InvSchedule(s, item);
    case Stop =>
      forall f | Busy(s.fibers, f) ensures OwnedBySome(Apply(s, a), f) {
        assert OwnedBySome(s, f);
      }
    case Take(w) => InvTake(s, w);
    case Start(w, unused) => InvStart(s, w, unused);
    case Park(w) => InvPark(s, w);
    case Inspect(w) => InvInspect(s, w);
    case Reschedule(w) => InvReschedule(s, w);
    case SetHold(w) => InvSetHold(s, w);
    case Idle(_, _) => InvIdle(s, a);
    case EnterRoot(_, _) => InvIdle(s, a);
    case _ => InvLeaveFiber(s, a);
  }
}
