/**
 * The worker loop of the scheduler (hx_sylar/scheduler.cc, `run`) together with the fiber state
 * machine (hx_sylar/fiber.cc), as a transition system over any number of workers. Every action is
 * one atomic step of the source: a critical section, a context switch, a counter update or one
 * assignment to a fiber's state.
 */
module SchedulerMachine {
  import opened Common

  type FiberId = nat

  /** `Fiber::State`. */
  datatype FiberState = INIT | HOLD | EXEC | TERM | READY | EXCEPT

  /** What a `FiberAndThread` entry carries: a fiber or a callback. */
  datatype Work = RunFiber(fiber: FiberId) | RunCallback(cb: nat)

  /** A queue entry; `thread == -1` means that any worker may take it. */
  datatype Item = Item(work: Work, thread: int)

  /** A fiber: its state field, and whether its context has been saved by a completed `swapOut`. */
  datatype Fiber = Fiber(state: FiberState, saved: bool)

  /**
   * The program counter of a worker inside `run`. `cb` says that the fiber is the worker's own
   * `cb_fiber`; `parked` that the running segment has handed its handle to an event or a timer.
   */
  datatype Pc =
    | Waiting                                              // caller thread before `stop` calls the root fiber
    | Top                                                  // before the locked scan
    | Took(item: Item)                                     // after the scan found an item
    | Empty                                                // after the scan found none
    | Running(fiber: FiberId, cb: bool, parked: bool)      // inside swapIn, on the fiber's stack
    | Switching(fiber: FiberId, cb: bool)                  // fiber decided to leave, context not saved yet
    | Back(fiber: FiberId, cb: bool)                       // swapIn returned
    | Post(fiber: FiberId, cb: bool)                       // after the decrement of the active count
    | Requeue(fiber: FiberId, cb: bool)                    // READY was read, schedule() not called yet
    | MarkHold(fiber: FiberId, cb: bool)                   // neither READY nor finished was read
    | Left                                                 // returned from run

  datatype Worker = Worker(pc: Pc, cbFiber: Option<FiberId>, idleTerm: bool)

  /** `scheduled` and `taken` are history: every entry ever pushed, and ever removed by a scan. */
  datatype State = State(
    queue: seq<Item>,
    fibers: map<FiberId, Fiber>,
    parked: set<FiberId>,
    workers: seq<Worker>,
    active: int,
    stopRequested: bool,
    scheduled: seq<Item>,
    taken: seq<Item>)

  function Init(n: nat, useCaller: bool): State {
    State([], map[], {},
          seq(n, i => Worker(if i == 0 && useCaller then Waiting else Top, None, false)),
          0, false, [], [])
  }

  datatype Action =
    | Schedule(source: Option<nat>, item: Item)  // by a fiber or the idle fiber on a worker, or from outside
    | Stop
    | EnterRoot(w: nat, quit: bool)   // `quit`: a derived `stopping` agrees to stop
    | Take(w: nat)
    | Start(w: nat, unused: FiberId)
    | Park(w: nat)
    | YieldToHold(w: nat)
    | YieldToReady(w: nat)
    | Finish(w: nat, threw: bool)
    | SwapOut(w: nat)
    | Decrement(w: nat)
    | Inspect(w: nat)
    | Reschedule(w: nat)
    | SetHold(w: nat)
    | Idle(w: nat, quit: bool)

  // ---------------------------------------------------------------- the locked scan

  /** Lines 146-156: neither pinned to another thread nor a fiber that is still marked EXEC. */
  predicate Eligible(it: Item, w: nat, fibers: map<FiberId, Fiber>) {
    && (it.thread == -1 || it.thread == w)
    && !(it.work.RunFiber? && it.work.fiber in fibers && fibers[it.work.fiber].state == EXEC)
  }

  /** Index of the first eligible entry, or the length of the queue. */
  function Scan(q: seq<Item>, w: nat, fibers: map<FiberId, Fiber>): (k: nat)
    ensures k <= |q|
    ensures k < |q| ==> Eligible(q[k], w, fibers)
    ensures forall i :: 0 <= i < k ==> !Eligible(q[i], w, fibers)
  {
    if q == [] then 0
    else if Eligible(q[0], w, fibers) then 0
    else
      var r := Scan(q[1..], w, fibers);
      assert forall i :: 1 <= i < r + 1 ==> q[i] == q[1..][i - 1];
      r + 1
  }

  /** `Scheduler::stopping`. */
  predicate Stopping(s: State) {
    s.stopRequested && s.queue == [] && s.active == 0
  }

  predicate Finished(st: FiberState) { st == TERM || st == EXCEPT }

  // ---------------------------------------------------------------- ownership

  /** The fiber a worker is taking, running or putting back. */
  predicate Handling(wk: Worker, f: FiberId) {
    match wk.pc
    case Took(it) => it.work == RunFiber(f)
    case Running(g, _, _) => g == f
    case Switching(g, _) => g == f
    case Back(g, _) => g == f
    case Post(g, _) => g == f
    case Requeue(g, _) => g == f
    case MarkHold(g, _) => g == f
    case _ => false
  }

  /** A worker owns the fiber it is handling and its recycled callback fiber. */
  predicate Owns(wk: Worker, f: FiberId) {
    Handling(wk, f) || wk.cbFiber == Some(f)
  }

  predicate OwnedBySome(s: State, f: FiberId) {
    exists w :: 0 <= w < |s.workers| && Owns(s.workers[w], f)
  }

  predicate Queued(q: seq<Item>, f: FiberId) {
    exists i :: 0 <= i < |q| && q[i].work == RunFiber(f)
  }

  /** The single handle of `f` sits outside the workers. */
  predicate HasHandle(s: State, f: FiberId) {
    Queued(s.queue, f) || f in s.parked
  }

  // ---------------------------------------------------------------- steps

  /** A fiber runs on the worker, or its idle fiber does: expired timers and deliveries schedule from there. */
  predicate MaySchedule(wk: Worker) { wk.pc.Running? || (wk.pc.Empty? && !wk.idleTerm) }

  /** The program counter at which the worker's action may be taken. */
  predicate Enabled(s: State, a: Action) {
    match a
    case Schedule(source, item) =>
      && (source.Some? ==> source.value < |s.workers| && MaySchedule(s.workers[source.value]))
      // one handle per fiber: wake a parked fiber, or hand in a fiber nobody holds
      && (item.work.RunFiber? ==>
            var f := item.work.fiber;
            f in s.parked || f !in s.fibers || (!Queued(s.queue, f) && !OwnedBySome(s, f)))
    case Stop => true
    case EnterRoot(w, _) => w < |s.workers| && s.workers[w].pc.Waiting? && s.stopRequested
    case Take(w) => w < |s.workers| && s.workers[w].pc.Top?
    case Start(w, unused) =>
      && w < |s.workers| && s.workers[w].pc.Took?
      && unused !in s.fibers
    case Park(w) => w < |s.workers| && s.workers[w].pc.Running? && !s.workers[w].pc.parked
    case YieldToHold(w) => w < |s.workers| && s.workers[w].pc.Running?
    case YieldToReady(w) => w < |s.workers| && s.workers[w].pc.Running? && !s.workers[w].pc.parked
    case Finish(w, _) => w < |s.workers| && s.workers[w].pc.Running? && !s.workers[w].pc.parked
    case SwapOut(w) => w < |s.workers| && s.workers[w].pc.Switching?
    case Decrement(w) => w < |s.workers| && s.workers[w].pc.Back?
    case Inspect(w) => w < |s.workers| && s.workers[w].pc.Post?
    case Reschedule(w) => w < |s.workers| && s.workers[w].pc.Requeue?
    case SetHold(w) => w < |s.workers| && s.workers[w].pc.MarkHold?
    case Idle(w, _) => w < |s.workers| && s.workers[w].pc.Empty?
  }

  function SetPc(s: State, w: nat, pc: Pc): State
    requires w < |s.workers|
  {
    s.(workers := s.workers[w := s.workers[w].(pc := pc)])
  }

  /** Writes `m_state`, keeping the saved context. */
  function SetState(s: State, f: FiberId, st: FiberState): State {
    s.(fibers := s.fibers[f := Fiber(st, f in s.fibers && s.fibers[f].saved)])
  }

  function StateOf(s: State, f: FiberId): FiberState {
    if f in s.fibers then s.fibers[f].state else INIT
  }

  function Push(s: State, it: Item): State {
    s.(queue := s.queue + [it], scheduled := s.scheduled + [it])
  }

  function DoSchedule(s: State, it: Item): State {
    if it.work.RunFiber? then
      var f := it.work.fiber;
      var s1 := if f in s.fibers then s else s.(fibers := s.fibers[f := Fiber(INIT, true)]);
      Push(s1.(parked := s1.parked - {f}), it)
    else Push(s, it)
  }

  function DoTake(s: State, w: nat): State
    requires w < |s.workers|
  {
    var k := Scan(s.queue, w, s.fibers);
    if k < |s.queue| then
      SetPc(s, w, Took(s.queue[k])).(
        queue := RemoveAt(s.queue, k), active := s.active + 1, taken := s.taken + [s.queue[k]])
    else SetPc(s, w, Empty)
  }

  /** Lines 171-173, 183-190 and 203-206: swap the fiber in, or drop a finished one. */
  function DoStart(s: State, w: nat, unused: FiberId): State
    requires w < |s.workers| && s.workers[w].pc.Took?
  {
    match s.workers[w].pc.item.work
    case RunFiber(f) =>
      if Finished(StateOf(s, f)) then SetPc(s, w, Top).(active := s.active - 1)
      else SetPc(s, w, Running(f, false, false)).(fibers := s.fibers[f := Fiber(EXEC, false)])
    case RunCallback(_) =>
      var g := if s.workers[w].cbFiber.Some? then s.workers[w].cbFiber.value else unused;
      s.(workers := s.workers[w := s.workers[w].(pc := Running(g, true, false), cbFiber := Some(g))],
         fibers := s.fibers[g := Fiber(EXEC, false)])
  }

  /** Lines 176-181 and 192-201: what the loop reads after the switch decides what it does. */
  function DoInspect(s: State, w: nat): State
    requires w < |s.workers| && s.workers[w].pc.Post?
  {
    var Post(f, cb) := s.workers[w].pc;
    var st := StateOf(s, f);
    if st == READY then SetPc(s, w, Requeue(f, cb))
    else if Finished(st) then
      if cb then SetState(SetPc(s, w, Top), f, INIT) else SetPc(s, w, Top)
    else SetPc(s, w, MarkHold(f, cb))
  }

  /** Back to the loop head; a callback fiber that did not finish is given up. */
  function Release(s: State, w: nat, cb: bool): State
    requires w < |s.workers|
  {
    s.(workers := s.workers[w := s.workers[w].(pc := Top,
                                               cbFiber := if cb then None else s.workers[w].cbFiber)])
  }

  /** `IOManager::stopping` asks for more than `Scheduler::stopping`, so the idle fiber may stay on. */
  function DoIdle(s: State, w: nat, quit: bool): State
    requires w < |s.workers|
  {
    if s.workers[w].idleTerm then SetPc(s, w, Left)
    else s.(workers := s.workers[w := s.workers[w].(pc := Top, idleTerm := quit && Stopping(s))])
  }

  function Apply(s: State, a: Action): State
    requires Enabled(s, a)
  {
    match a
    case Schedule(_, item) => DoSchedule(s, item)
    case Stop => s.(stopRequested := true)
    case EnterRoot(w, quit) => SetPc(s, w, if quit && Stopping(s) then Left else Top)
    case Take(w) => DoTake(s, w)
    case Start(w, unused) => DoStart(s, w, unused)
    case Park(w) =>
      var Running(f, cb, _) := s.workers[w].pc;
      SetPc(s, w, Running(f, cb, true)).(parked := s.parked + {f})
    case YieldToHold(w) =>
      var Running(f, cb, _) := s.workers[w].pc;
      SetPc(s, w, Switching(f, cb))
    case YieldToReady(w) =>
      var Running(f, cb, _) := s.workers[w].pc;
      SetState(SetPc(s, w, Switching(f, cb)), f, READY)
    case Finish(w, threw) =>
      var Running(f, cb, _) := s.workers[w].pc;
      SetState(SetPc(s, w, Switching(f, cb)), f, if threw then EXCEPT else TERM)
    case SwapOut(w) =>
      var Switching(f, cb) := s.workers[w].pc;
      SetPc(s, w, Back(f, cb)).(fibers := s.fibers[f := Fiber(StateOf(s, f), true)])
    case Decrement(w) =>
      var Back(f, cb) := s.workers[w].pc;
      SetPc(s, w, Post(f, cb)).(active := s.active - 1)
    case Inspect(w) => DoInspect(s, w)
    case Reschedule(w) =>
      var Requeue(f, cb) := s.workers[w].pc;
      Release(Push(s, Item(RunFiber(f), -1)), w, cb)
    case SetHold(w) =>
      var MarkHold(f, cb) := s.workers[w].pc;
      Release(SetState(s, f, HOLD), w, cb)
    case Idle(w, quit) => DoIdle(s, w, quit)
  }

  /** A finite run: the states it passes through and the actions between them. */
  predicate IsRun(states: seq<State>, acts: seq<Action>) {
    && |states| == |acts| + 1
    && forall i :: 0 <= i < |acts| ==> Enabled(states[i], acts[i]) && states[i + 1] == Apply(states[i], acts[i])
  }
}
