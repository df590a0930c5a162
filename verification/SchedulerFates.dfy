/**
 * What becomes of every entry a worker takes from the queue, over every run: it is still in the worker's
 * hands, or was swapped in once as what it asked for, or was dropped because its fiber's code had ended.
 */
module SchedulerFates {
  import opened Common
  import opened SchedulerMachine
  import SS = SchedulerSafety
  import SR = SchedulerRuns

  /** `Dropped` remembers the state the fiber was in. */
  datatype Fate = Held(w: nat) | SwappedIn(n: nat) | Dropped(state: FiberState)

  /** Entry `k` of `taken` led worker `w` to run `fiber`; `kept` is the callback fiber it had before. */
  datatype SwapIn = SwapIn(k: nat, w: nat, fiber: FiberId, kept: Option<FiberId>)

  /**
   * `holds[w]` is the entry worker `w` has taken and not started; `ended` are the fibers whose code ran to
   * its end (false) or threw (true) when they last ran; `ready` those that yielded to be run again.
   */
  datatype History = History(fate: seq<Fate>, swaps: seq<SwapIn>, holds: map<nat, nat>,
                             ended: map<FiberId, bool>, ready: set<FiberId>)

  datatype Traced = Traced(s: State, h: History)

  function FiberOf(s: State, w: nat): FiberId
    requires w < |s.workers| && s.workers[w].pc.Running?
  {
    s.workers[w].pc.fiber
  }

  /** What is seen of a step: the history looks at the states before and after it, not at how it is made. */
  function Seen(h: History, s: State, a: Action, s': State): History
    requires Enabled(s, a) && |s'.workers| == |s.workers|
  {
    match a
    case Take(w) =>
      if s'.workers[w].pc.Took? then h.(fate := h.fate + [Held(w)], holds := h.holds[w := |h.fate|]) else h
    case Start(w, _) =>
      if w !in h.holds || h.holds[w] >= |h.fate| then h
      else if s'.workers[w].pc.Running? then
        var k, f := h.holds[w], FiberOf(s', w);
        History(h.fate[k := SwappedIn(|h.swaps|)], h.swaps + [SwapIn(k, w, f, s.workers[w].cbFiber)], h.holds - {w},
                h.ended - {f}, h.ready - {f})
      else
        var work := s.workers[w].pc.item.work;
        h.(fate := h.fate[h.holds[w] := Dropped(if work.RunFiber? then StateOf(s, work.fiber) else INIT)],
           holds := h.holds - {w})
    case YieldToReady(w) => h.(ready := h.ready + {FiberOf(s, w)})
    case Finish(w, threw) => h.(ended := h.ended[FiberOf(s, w) := threw])
    case _ => h
  }

  lemma SameWorkers(s: State, a: Action)
    requires Enabled(s, a)
    ensures |Apply(s, a).workers| == |s.workers|
  {
    match a case _ =>
  }

  ghost predicate IsStep(t: Traced, a: Action, t': Traced) {
    && Enabled(t.s, a) && t'.s == Apply(t.s, a) && |t'.s.workers| == |t.s.workers|
    && t'.h == Seen(t.h, t.s, a, t'.s)
  }

  ghost predicate IsRun(states: seq<Traced>, acts: seq<Action>, n: nat, useCaller: bool) {
    && |states| == |acts| + 1 && states[0] == Traced(Init(n, useCaller), History([], [], map[], map[], {}))
    && forall i :: 0 <= i < |acts| ==> IsStep(states[i], acts[i], states[i + 1])
  }

  // ---------------------------------------------------------------- the invariant

  /** A worker before its swap-in holds one entry, and a held entry is in the hands of one worker. */
  ghost predicate HoldsOk(s: State, h: History) {
    && |h.fate| == |s.taken|
    && (forall w :: w in h.holds <==> 0 <= w < |s.workers| && s.workers[w].pc.Took?)
    && (forall w :: w in h.holds ==>
          h.holds[w] < |h.fate| && h.fate[h.holds[w]] == Held(w) && s.taken[h.holds[w]] == s.workers[w].pc.item)
    && (forall k :: 0 <= k < |h.fate| && h.fate[k].Held? ==> h.fate[k].w in h.holds && h.holds[h.fate[k].w] == k)
  }

  /** The fiber of a fiber entry; for a callback the fiber kept for that purpose, if there is one. */
  predicate RightFiber(work: Work, x: SwapIn) {
    match work
    case RunFiber(f) => x.fiber == f
    case RunCallback(_) => x.kept.Some? ==> x.fiber == x.kept.value
  }

  ghost predicate SwapsOk(s: State, h: History) {
    && |h.fate| == |s.taken|
    && (forall n :: 0 <= n < |h.swaps| ==>
          && h.swaps[n].k < |h.fate| && h.fate[h.swaps[n].k] == SwappedIn(n)
          && RightFiber(s.taken[h.swaps[n].k].work, h.swaps[n]))
    && (forall k :: 0 <= k < |h.fate| && h.fate[k].SwappedIn? ==>
          h.fate[k].n < |h.swaps| && h.swaps[h.fate[k].n].k == k)
    && (forall k :: 0 <= k < |h.fate| && h.fate[k].Dropped? ==>
          s.taken[k].work.RunFiber? && Finished(h.fate[k].state))
  }

  /** A fiber is marked finished only by its own code, and as that code ended. */
  ghost predicate EndedOk(s: State, h: History) {
    forall f :: f in s.fibers && Finished(s.fibers[f].state) ==>
      f in h.ended && s.fibers[f].state == if h.ended[f] then EXCEPT else TERM
  }

  ghost predicate HandledBySome(s: State, f: FiberId) {
    exists w :: 0 <= w < |s.workers| && Handling(s.workers[w], f)
  }

  /** A fiber that yielded READY is in the hands of the loop that ran it, queued, or taken again. */
  ghost predicate ReadyOk(s: State, h: History) {
    forall f :: f in h.ready ==>
      f in s.fibers && s.fibers[f].state == READY && (Queued(s.queue, f) || HandledBySome(s, f))
  }

  ghost predicate Inv(t: Traced) {
    SS.Inv(t.s) && HoldsOk(t.s, t.h) && SwapsOk(t.s, t.h) && EndedOk(t.s, t.h) && ReadyOk(t.s, t.h)
  }

  // ---------------------------------------------------------------- entries

  /** Other steps neither take nor start anything. */
  lemma OthersHold(s: State, a: Action)
    requires Enabled(s, a) && !a.Take? && !a.Start?
    ensures var s' := Apply(s, a);
            && s'.taken == s.taken && |s'.workers| == |s.workers|
            && forall w :: 0 <= w < |s.workers| ==>
                 && (s'.workers[w].pc.Took? <==> s.workers[w].pc.Took?)
                 && (s.workers[w].pc.Took? ==> s'.workers[w].pc == s.workers[w].pc)
  {
    match a case _ =>
  }

  /** Workers other than `w` keep the entries they hold. */
  ghost predicate SameHands(s: State, s': State, w: nat) {
    && w < |s.workers| == |s'.workers|
    && forall v :: 0 <= v < |s.workers| && v != w ==> s'.workers[v] == s.workers[v]
  }

  lemma TakeHolds(s: State, h: History, w: nat)
    requires Enabled(s, Take(w)) && HoldsOk(s, h) && SwapsOk(s, h)
    ensures HoldsOk(DoTake(s, w), Seen(h, s, Take(w), DoTake(s, w)))
    ensures SwapsOk(DoTake(s, w), Seen(h, s, Take(w), DoTake(s, w)))
  {
    var s' := DoTake(s, w);
    if s'.workers[w].pc.Took? { Handed(s, h, s', w); } else { SameHeld(s, h, s'); }
  }

  lemma Handed(s: State, h: History, s': State, w: nat)
    requires HoldsOk(s, h) && SwapsOk(s, h) && SameHands(s, s', w) && !s.workers[w].pc.Took? && s'.workers[w].pc.Took?
    requires s'.taken == s.taken + [s'.workers[w].pc.item]
    ensures var h' := h.(fate := h.fate + [Held(w)], holds := h.holds[w := |h.fate|]);
            HoldsOk(s', h') && SwapsOk(s', h')
  {
    var h' := h.(fate := h.fate + [Held(w)], holds := h.holds[w := |h.fate|]);
    assert forall k :: 0 <= k < |h.fate| ==> h'.fate[k] == h.fate[k] && s'.taken[k] == s.taken[k];
  }

  lemma SameHeld(s: State, h: History, s': State)
    requires HoldsOk(s, h) && SwapsOk(s, h) && s'.taken == s.taken && |s'.workers| == |s.workers|
    requires forall w :: 0 <= w < |s.workers| ==>
               && (s'.workers[w].pc.Took? <==> s.workers[w].pc.Took?)
               && (s.workers[w].pc.Took? ==> s'.workers[w].pc == s.workers[w].pc)
    ensures HoldsOk(s', h) && SwapsOk(s', h)
  {}

  /** Worker `w` lets go of its entry, which then has fate `x`. */
  lemma LetGo(s: State, h: History, s': State, w: nat, x: Fate)
    requires HoldsOk(s, h) && SameHands(s, s', w) && w in h.holds && !s'.workers[w].pc.Took? && s'.taken == s.taken
    requires !x.Held?
    ensures h.holds[w] < |h.fate| && HoldsOk(s', h.(fate := h.fate[h.holds[w] := x], holds := h.holds - {w}))
  {
    assert forall v :: v in h.holds && v != w ==> h.holds[v] != h.holds[w];
  }

  lemma SwapNoted(s: State, h: History, k: nat, x: SwapIn)
    requires SwapsOk(s, h) && k < |h.fate| && h.fate[k].Held? && x.k == k && RightFiber(s.taken[k].work, x)
    ensures SwapsOk(s, h.(fate := h.fate[k := SwappedIn(|h.swaps|)], swaps := h.swaps + [x]))
  {}

  lemma DropNoted(s: State, h: History, k: nat, st: FiberState)
    requires SwapsOk(s, h) && k < |h.fate| && h.fate[k].Held? && s.taken[k].work.RunFiber? && Finished(st)
    ensures SwapsOk(s, h.(fate := h.fate[k := Dropped(st)]))
  {}

  /** A taken entry is swapped in as what it asks for, or its fiber is finished and it is dropped. */
  lemma StartMeans(s: State, w: nat, unused: FiberId)
    requires Enabled(s, Start(w, unused))
    ensures var s', work := DoStart(s, w, unused), s.workers[w].pc.item.work;
            && SameHands(s, s', w) && s'.taken == s.taken && s'.queue == s.queue
            && (if work.RunFiber? && Finished(StateOf(s, work.fiber)) then
                  s'.workers[w].pc == Top && s'.fibers == s.fibers
                else
                  && s'.workers[w].pc.Running? && s'.workers[w].pc.cb == work.RunCallback? && !s'.workers[w].pc.parked
                  && RightFiber(work, SwapIn(0, w, s'.workers[w].pc.fiber, s.workers[w].cbFiber))
                  && s'.fibers == s.fibers[s'.workers[w].pc.fiber := Fiber(EXEC, false)])
  {}

  lemma StartHolds(s: State, h: History, w: nat, unused: FiberId)
    requires Enabled(s, Start(w, unused)) && HoldsOk(s, h) && SwapsOk(s, h)
    ensures HoldsOk(DoStart(s, w, unused), Seen(h, s, Start(w, unused), DoStart(s, w, unused)))
    ensures SwapsOk(DoStart(s, w, unused), Seen(h, s, Start(w, unused), DoStart(s, w, unused)))
  {
    var s', k := DoStart(s, w, unused), h.holds[w];
    StartMeans(s, w, unused);
    if s'.workers[w].pc.Running? {
      LetGo(s, h, s', w, SwappedIn(|h.swaps|));
      SwapNoted(s, h, k, SwapIn(k, w, s'.workers[w].pc.fiber, s.workers[w].cbFiber));
    } else {
      var st := StateOf(s, s.workers[w].pc.item.work.fiber);
      LetGo(s, h, s', w, Dropped(st));
      DropNoted(s, h, k, st);
    }
  }

  // ---------------------------------------------------------------- finished and ready fibers

  lemma OthersEnd(s: State, a: Action)
    requires Enabled(s, a) && !a.Finish? && !a.Start?
    ensures var s' := Apply(s, a);
            forall f :: f in s'.fibers && Finished(s'.fibers[f].state) ==>
              f in s.fibers && s.fibers[f].state == s'.fibers[f].state
  {
    match a case _ =>
  }

  lemma EndedKept(t: Traced, a: Action, t': Traced)
    requires EndedOk(t.s, t.h) && IsStep(t, a, t')
    ensures EndedOk(t'.s, t'.h)
  {
    if a.Start? { StartEnds(t.s, t.h, a.w, a.unused); }
    else if !a.Finish? { OthersEnd(t.s, a); }
  }

  lemma StartEnds(s: State, h: History, w: nat, unused: FiberId)
    requires Enabled(s, Start(w, unused)) && EndedOk(s, h)
    ensures EndedOk(DoStart(s, w, unused), Seen(h, s, Start(w, unused), DoStart(s, w, unused)))
  {
    StartMeans(s, w, unused);
  }

  /** What the place of a READY fiber may become. */
  ghost predicate KeepsReady(s: State, s': State, f: FiberId) {
    f in s.fibers && s.fibers[f].state == READY && (Queued(s.queue, f) || HandledBySome(s, f)) ==>
      f in s'.fibers && s'.fibers[f].state == READY && (Queued(s'.queue, f) || HandledBySome(s', f))
  }

  lemma StillHandled(s: State, s': State, w: nat, f: FiberId)
    requires SameHands(s, s', w) && HandledBySome(s, f)
    requires Handling(s.workers[w], f) ==> Handling(s'.workers[w], f)
    ensures HandledBySome(s', f)
  {
    var v :| 0 <= v < |s.workers| && Handling(s.workers[v], f);
    assert Handling(s'.workers[v], f);
  }

  lemma TakeReady(s: State, w: nat, f: FiberId)
    requires Enabled(s, Take(w))
    ensures KeepsReady(s, DoTake(s, w), f)
  {
    var s', k := DoTake(s, w), Scan(s.queue, w, s.fibers);
    if HandledBySome(s, f) { StillHandled(s, s', w, f); }
    if Queued(s.queue, f) && k < |s.queue| {
      var i :| 0 <= i < |s.queue| && s.queue[i].work == RunFiber(f);
      if i == k {
        assert Handling(s'.workers[w], f);
      } else {
        assert s'.queue[if i < k then i else i - 1] == s.queue[i];
      }
    }
  }

  lemma StartReady(s: State, w: nat, unused: FiberId, f: FiberId)
    requires Enabled(s, Start(w, unused))
    ensures var s' := DoStart(s, w, unused);
            (s'.workers[w].pc.Running? && s'.workers[w].pc.fiber == f) || KeepsReady(s, s', f)
  {
    StartMeans(s, w, unused);
    var s' := DoStart(s, w, unused);
    if HandledBySome(s, f) && !Handling(s.workers[w], f) { StillHandled(s, s', w, f); }
  }

  /** The steps of a worker after its fiber has left it. */
  lemma LoopReady(s: State, a: Action, f: FiberId)
    requires SS.Inv(s) && Enabled(s, a) && (a.SwapOut? || a.Decrement? || a.Inspect? || a.Reschedule? || a.SetHold?)
    ensures KeepsReady(s, Apply(s, a), f)
  {
    var s' := Apply(s, a);
    assert SS.WorkerOk(s.workers[a.w], s.fibers);
    if a.Reschedule? && Handling(s.workers[a.w], f) {
      assert s'.queue[|s.queue|].work == RunFiber(f);
    } else if Queued(s.queue, f) {
      StillQueued(s.queue, s'.queue, f);
    } else if HandledBySome(s, f) && f in s.fibers && s.fibers[f].state == READY {
      StillHandled(s, s', a.w, f);
    }
  }

  lemma StillQueued(q: seq<Item>, q': seq<Item>, f: FiberId)
    requires Queued(q, f) && q <= q'
    ensures Queued(q', f)
  {
    var i :| 0 <= i < |q| && q[i].work == RunFiber(f);
    assert q'[i] == q[i];
  }

  /** The steps of a running fiber, of an idle worker and from outside. */
  lemma OtherReady(s: State, a: Action, f: FiberId)
    requires SS.Inv(s) && Enabled(s, a)
    requires a.Schedule? || a.Stop? || a.EnterRoot? || a.Idle?
             || a.Park? || a.YieldToHold? || a.YieldToReady? || a.Finish?
    ensures KeepsReady(s, Apply(s, a), f)
  {
    var s' := Apply(s, a);
    if Queued(s.queue, f) { StillQueued(s.queue, s'.queue, f); }
    if a.Schedule? || a.Stop? {
      assert s'.workers == s.workers;
    } else {
      assert SS.WorkerOk(s.workers[a.w], s.fibers);
      if HandledBySome(s, f) { StillHandled(s, s', a.w, f); }
    }
  }

  lemma ReadyKept(t: Traced, a: Action, t': Traced)
    requires SS.Inv(t.s) && ReadyOk(t.s, t.h) && HoldsOk(t.s, t.h) && IsStep(t, a, t')
    ensures ReadyOk(t'.s, t'.h)
  {
    forall f | f in t'.h.ready
      ensures f in t'.s.fibers && t'.s.fibers[f].state == READY && (Queued(t'.s.queue, f) || HandledBySome(t'.s, f))
    {
      if a.YieldToReady? && f == FiberOf(t.s, a.w) {
        assert Handling(t'.s.workers[a.w], f);
      } else if a.Take? {
        TakeReady(t.s, a.w, f);
      } else if a.Start? {
        StartReady(t.s, a.w, a.unused, f);
      } else if a.SwapOut? || a.Decrement? || a.Inspect? || a.Reschedule? || a.SetHold? {
        LoopReady(t.s, a, f);
      } else {
        OtherReady(t.s, a, f);
      }
    }
  }

  // ---------------------------------------------------------------- every run

  lemma InvStep(t: Traced, a: Action, t': Traced)
    requires Inv(t) && IsStep(t, a, t')
    ensures Inv(t')
  {
    SS.InvStep(t.s, a);
    EndedKept(t, a, t');
    ReadyKept(t, a, t');
    if a.Take? {
      TakeHolds(t.s, t.h, a.w);
    } else if a.Start? {
      StartHolds(t.s, t.h, a.w, a.unused);
    } else {
      OthersHold(t.s, a);
      SameHeld(t.s, t.h, t'.s);
    }
  }

  lemma {:induction false} RunInv(states: seq<Traced>, acts: seq<Action>, n: nat, useCaller: bool, i: nat)
    requires IsRun(states, acts, n, useCaller) && i < |states|
    ensures Inv(states[i])
  {
    if i == 0 {
      SS.InvInit(n, useCaller);
    } else {
      RunInv(states, acts, n, useCaller, i - 1);
      InvNext(states, acts, n, useCaller, i);
    }
  }

  lemma InvNext(states: seq<Traced>, acts: seq<Action>, n: nat, useCaller: bool, i: nat)
    requires IsRun(states, acts, n, useCaller) && 0 < i < |states| && Inv(states[i - 1])
    ensures Inv(states[i])
  {
    var j := i - 1;
    assert IsStep(states[j], acts[j], states[j + 1]);
    InvStep(states[j], acts[j], states[j + 1]);
  }

  /** Entry `k` is in the hands of one worker, was swapped in once, or was dropped as finished. */
  ghost predicate OneFate(s: State, h: History, k: nat) {
    && k < |s.taken| == |h.fate|
    && match h.fate[k]
       case Held(w) =>
         && w < |s.workers| && s.workers[w].pc == Took(s.taken[k])
         && forall j :: 0 <= j < |h.fate| && h.fate[j] == Held(w) ==> j == k
       case SwappedIn(n) =>
         && n < |h.swaps| && h.swaps[n].k == k && RightFiber(s.taken[k].work, h.swaps[n])
         && forall m :: 0 <= m < |h.swaps| && h.swaps[m].k == k ==> m == n
       case Dropped(st) =>
         && s.taken[k].work.RunFiber? && Finished(st)
         && forall m :: 0 <= m < |h.swaps| ==> h.swaps[m].k != k
  }

  /** Every entry ever taken has exactly one of the three fates, in every reachable state. */
  lemma TakenFate(states: seq<Traced>, acts: seq<Action>, n: nat, useCaller: bool, i: nat, k: nat)
    requires IsRun(states, acts, n, useCaller) && i < |states| && k < |states[i].s.taken|
    ensures OneFate(states[i].s, states[i].h, k)
  {
    RunInv(states, acts, n, useCaller, i);
  }

  /**
   * What a worker makes of the entry it has taken: the fiber or callback is swapped in and marked EXEC on
   * that worker, unless the entry is a fiber whose own code has ended, which is dropped.
   */
  ghost predicate StartedAsAsked(t: Traced, w: nat, s': State)
    requires w < |t.s.workers| == |s'.workers| && t.s.workers[w].pc.Took?
  {
    var work, pc := t.s.workers[w].pc.item.work, s'.workers[w].pc;
    if work.RunFiber? && Finished(StateOf(t.s, work.fiber)) then pc == Top && work.fiber in t.h.ended
    else
      && pc.Running? && pc.cb == work.RunCallback? && pc.fiber in s'.fibers && s'.fibers[pc.fiber].state == EXEC
      && RightFiber(work, SwapIn(0, w, pc.fiber, t.s.workers[w].cbFiber))
  }

  lemma StartOutcome(states: seq<Traced>, acts: seq<Action>, n: nat, useCaller: bool, i: nat)
    requires IsRun(states, acts, n, useCaller) && i < |acts| && acts[i].Start?
    ensures Enabled(states[i].s, acts[i]) && |states[i + 1].s.workers| == |states[i].s.workers|
    ensures StartedAsAsked(states[i], acts[i].w, states[i + 1].s)
  {
    RunInv(states, acts, n, useCaller, i);
    assert IsStep(states[i], acts[i], states[i + 1]);
    StartMeans(states[i].s, acts[i].w, acts[i].unused);
  }

  /** A fiber that yielded READY is marked so and queued, or in a worker's hands, until it is swapped in again. */
  lemma ReadyComesBack(states: seq<Traced>, acts: seq<Action>, n: nat, useCaller: bool, i: nat, f: FiberId)
    requires IsRun(states, acts, n, useCaller) && i < |states| && f in states[i].h.ready
    ensures StateOf(states[i].s, f) == READY && (Queued(states[i].s.queue, f) || HandledBySome(states[i].s, f))
  {
    RunInv(states, acts, n, useCaller, i);
  }

  /** A fiber is TERM or EXCEPT only if its own code ran to its end or threw when it last ran. */
  lemma FinishedByOwnCode(states: seq<Traced>, acts: seq<Action>, n: nat, useCaller: bool, i: nat, f: FiberId)
    requires IsRun(states, acts, n, useCaller) && i < |states| && Finished(StateOf(states[i].s, f))
    ensures f in states[i].h.ended && StateOf(states[i].s, f) == if states[i].h.ended[f] then EXCEPT else TERM
  {
    RunInv(states, acts, n, useCaller, i);
  }
}
