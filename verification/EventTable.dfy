/**
 * The event table of the IO manager (hx_sylar/iomanager.cc): one context per file descriptor, the
 * interest set the kernel holds, and the pending count. Every operation is one critical section
 * of the descriptor's mutex; what `epoll_ctl` answers is an input.
 */
module EventTable {
  import opened Common

  datatype Event = READ | WRITE

  /** What is resumed: a parked fiber or a callback. */
  datatype Handle = FiberHandle(id: nat) | CallbackHandle(id: nat)

  datatype EventContext = EventContext(scheduler: Option<nat>, fiber: Option<nat>, cb: Option<nat>)

  const EMPTY := EventContext(None, None, None)

  datatype FdContext = FdContext(fd: nat, events: set<Event>, read: EventContext, write: EventContext)

  /** An entry handed to a scheduler by `triggerEvent`. */
  datatype Handed = Handed(scheduler: nat, handle: Handle)

  /** `log` lists, in order, everything the table has handed to a scheduler. */
  datatype Table = Table(slots: seq<FdContext>, kernel: map<nat, set<Event>>, pending: int, log: seq<Handed>)

  datatype Outcome =
    | Done
    | Refused      // -1 or false, or a report that is skipped
    | Aborted      // an HX_ASSERT fails

  function Context(c: FdContext, e: Event): EventContext {
    if e == READ then c.read else c.write
  }

  function SetContext(c: FdContext, e: Event, x: EventContext): FdContext {
    if e == READ then c.(read := x) else c.(write := x)
  }

  // ---------------------------------------------------------------- the table

  function FreshSlots(from: nat, to: nat): (r: seq<FdContext>)
    requires from <= to
    ensures |r| == to - from
    ensures forall i :: 0 <= i < |r| ==> r[i] == FdContext(from + i, {}, EMPTY, EMPTY)
  {
    seq(to - from, i requires 0 <= i => FdContext(from + i, {}, EMPTY, EMPTY))
  }

  /** `contextResize`: the vector is cut or extended, and every new place gets its own context. */
  function Resize(slots: seq<FdContext>, size: nat): seq<FdContext> {
    if size <= |slots| then slots[..size] else slots + FreshSlots(|slots|, size)
  }

  /** The size `addEvent` asks for: `fd * 1.5` truncated. */
  function GrowTo(fd: nat): nat { fd * 3 / 2 }

  /** Lookup in `addEvent`, growing the table when the descriptor is beyond it. */
  function Grown(slots: seq<FdContext>, fd: nat): seq<FdContext> {
    if fd < |slots| then slots else Resize(slots, GrowTo(fd))
  }

  function InitTable(): Table { Table(Resize([], 32), map[], 0, []) }

  // ---------------------------------------------------------------- the kernel

  datatype Op = ADD | MOD | DEL

  /** ADD needs an unknown descriptor, MOD and DEL a known one. */
  predicate Legal(kernel: map<nat, set<Event>>, op: Op, fd: nat) {
    if op == ADD then fd !in kernel else fd in kernel
  }

  /** `epoll_ctl`; None when it fails, which it does for an illegal operation or whenever `ok` is false. */
  function EpollCtl(kernel: map<nat, set<Event>>, op: Op, fd: nat, bits: set<Event>, ok: bool)
    : Option<map<nat, set<Event>>>
  {
    if !ok || !Legal(kernel, op, fd) then None
    else Some(if op == DEL then kernel - {fd} else kernel[fd := bits])
  }

  // ---------------------------------------------------------------- operations

  /** The assertion of `triggerEvent`, and the pointers it dereferences. */
  predicate CanTrigger(c: FdContext, e: Event) {
    && e in c.events && Context(c, e).scheduler.Some?
    && (Context(c, e).cb.Some? || Context(c, e).fiber.Some?)
  }

  /** `triggerEvent`: clears the bit and moves the handle out of its slot into the scheduler. */
  function TriggerContext(c: FdContext, e: Event): (FdContext, Handed)
    requires CanTrigger(c, e)
  {
    var x := Context(c, e);
    var c1 := c.(events := c.events - {e});
    if x.cb.Some? then
      (SetContext(c1, e, x.(cb := None, scheduler := None)), Handed(x.scheduler.value, CallbackHandle(x.cb.value)))
    else
      (SetContext(c1, e, x.(fiber := None, scheduler := None)), Handed(x.scheduler.value, FiberHandle(x.fiber.value)))
  }

  /** A trigger together with the decrement of the pending count that follows it. */
  function Trigger(t: Table, fd: nat, e: Event): Table
    requires fd < |t.slots| && CanTrigger(t.slots[fd], e)
  {
    var (c, h) := TriggerContext(t.slots[fd], e);
    t.(slots := t.slots[fd := c], log := t.log + [h], pending := t.pending - 1)
  }

  /** Trigger when `wanted`; None when the assertion of `triggerEvent` fails. */
  function TriggerIf(wanted: bool, t: Table, fd: nat, e: Event): Option<Table>
    requires fd < |t.slots|
  {
    if !wanted then Some(t)
    else if CanTrigger(t.slots[fd], e) then Some(Trigger(t, fd, e))
    else None
  }

  function AddEvent(t: Table, fd: nat, e: Event, scheduler: nat, handle: Handle, ok: bool): (Table, Outcome) {
    var t1 := t.(slots := Grown(t.slots, fd));
    if fd >= |t1.slots| then (t, Aborted) else
    var c := t1.slots[fd];
    if e in c.events then (t, Aborted) else
    match EpollCtl(t.kernel, if c.events != {} then MOD else ADD, fd, c.events + {e}, ok)
    case None => (t1, Refused)
    case Some(kernel) =>
      if Context(c, e) != EMPTY then (t, Aborted) else
      var x := match handle
               case CallbackHandle(id) => EventContext(Some(scheduler), None, Some(id))
               case FiberHandle(id) => EventContext(Some(scheduler), Some(id), None);
      var c1 := SetContext(c.(events := c.events + {e}), e, x);
      (t1.(slots := t1.slots[fd := c1], kernel := kernel, pending := t.pending + 1), Done)
  }

  /** `delEvent`: the bit is cleared and the handle dropped. A descriptor outside the table is refused. */
  function DelEvent(t: Table, fd: nat, e: Event, ok: bool): (Table, Outcome) {
    if fd >= |t.slots| || e !in t.slots[fd].events then (t, Refused) else
    var c := t.slots[fd];
    var left := c.events - {e};
    match EpollCtl(t.kernel, if left != {} then MOD else DEL, fd, left, ok)
    case None => (t, Refused)
    case Some(kernel) =>
      var c1 := SetContext(c.(events := left), e, EMPTY);
      (t.(slots := t.slots[fd := c1], kernel := kernel, pending := t.pending - 1), Done)
  }

  /** `cancelEvent`: the bit is cleared and the handle scheduled. */
  function CancelEvent(t: Table, fd: nat, e: Event, ok: bool): (Table, Outcome) {
    if fd >= |t.slots| || e !in t.slots[fd].events then (t, Refused) else
    var left := t.slots[fd].events - {e};
    match EpollCtl(t.kernel, if left != {} then MOD else DEL, fd, left, ok)
    case None => (t, Refused)
    case Some(kernel) =>
      match TriggerIf(true, t.(kernel := kernel), fd, e)
      case None => (t, Aborted)
      case Some(t1) => (t1, Done)
  }

  function CancelAll(t: Table, fd: nat, ok: bool): (Table, Outcome) {
    if fd >= |t.slots| || t.slots[fd].events == {} then (t, Refused) else
    match EpollCtl(t.kernel, DEL, fd, {}, ok)
    case None => (t, Refused)
    case Some(kernel) =>
      match TriggerIf(READ in t.slots[fd].events, t.(kernel := kernel), fd, READ)
      case None => (t, Aborted)
      case Some(t1) =>
        match TriggerIf(WRITE in t1.slots[fd].events, t1, fd, WRITE)
        case None => (t, Aborted)
        case Some(t2) => if t2.slots[fd].events == {} then (t2, Done) else (t, Aborted)
  }

  /** What a report of `epoll_wait` counts as: an error or hang-up stands for every registered bit. */
  function RealEvents(c: FdContext, reported: set<Event>, errHup: bool): set<Event> {
    reported + if errHup then c.events else {}
  }

  /** One iteration of the delivery loop in `idle`. There are no reports for a descriptor without a slot. */
  function Deliver(t: Table, fd: nat, reported: set<Event>, errHup: bool, ok: bool): (Table, Outcome) {
    if fd >= |t.slots| then (t, Refused) else
    var c := t.slots[fd];
    var actual := RealEvents(c, reported, errHup);
    if c.events * actual == {} then (t, Refused) else
    var left := c.events - actual;
    match EpollCtl(t.kernel, if left != {} then MOD else DEL, fd, left, ok)
    case None => (t, Refused)
    case Some(kernel) =>
      match TriggerIf(READ in actual, t.(kernel := kernel), fd, READ)
      case None => (t, Aborted)
      case Some(t1) =>
        match TriggerIf(WRITE in actual, t1, fd, WRITE)
        case None => (t, Aborted)
        case Some(t2) => (t2, Done)
  }

  // ---------------------------------------------------------------- the invariant

  /** A set bit holds a scheduler and exactly one of fiber and callback; a clear bit holds nothing. */
  predicate ContextOk(c: FdContext, e: Event) {
    var x := Context(c, e);
    if e in c.events then x.scheduler.Some? && (x.fiber.Some? <==> x.cb.None?)
    else x == EMPTY
  }

  predicate SlotOk(c: FdContext) { ContextOk(c, READ) && ContextOk(c, WRITE) }

  function TotalBits(slots: seq<FdContext>): nat {
    if slots == [] then 0 else TotalBits(slots[..|slots| - 1]) + |slots[|slots| - 1].events|
  }

  predicate KernelAgrees(t: Table) {
    && (forall i :: 0 <= i < |t.slots| ==>
          if t.slots[i].events == {} then i !in t.kernel else i in t.kernel && t.kernel[i] == t.slots[i].events)
    && forall i :: i in t.kernel ==> i < |t.slots|
  }

  predicate SlotsOk(slots: seq<FdContext>) {
    |slots| >= 32 && forall i :: 0 <= i < |slots| ==> slots[i].fd == i && SlotOk(slots[i])
  }

  predicate TableOk(t: Table) {
    SlotsOk(t.slots) && KernelAgrees(t) && t.pending == TotalBits(t.slots)
  }

  // ---------------------------------------------------------------- counting bits

  lemma {:induction false} BitsUpdate(slots: seq<FdContext>, fd: nat, c: FdContext)
    requires fd < |slots|
    ensures TotalBits(slots[fd := c]) == TotalBits(slots) - |slots[fd].events| + |c.events|
  {
    var n := |slots| - 1;
    if fd == n {
      assert slots[fd := c][..n] == slots[..n];
    } else {
      BitsUpdate(slots[..n], fd, c);
      assert slots[fd := c][..n] == slots[..n][fd := c];
    }
  }

  lemma {:induction false} BitsExtend(slots: seq<FdContext>, more: seq<FdContext>)
    requires forall i :: 0 <= i < |more| ==> more[i].events == {}
    ensures TotalBits(slots + more) == TotalBits(slots)
  {
    if more == [] {
      assert slots + more == slots;
    } else {
      var n := |more| - 1;
      BitsExtend(slots, more[..n]);
      assert (slots + more)[..|slots + more| - 1] == slots + more[..n];
    }
  }

  lemma {:induction false} BitsPrefix(slots: seq<FdContext>, n: nat)
    requires n <= |slots|
    ensures TotalBits(slots[..n]) <= TotalBits(slots)
    ensures TotalBits(slots[..n]) == TotalBits(slots) <==> forall i :: n <= i < |slots| ==> slots[i].events == {}
  {
    if n == |slots| {
      assert slots[..n] == slots;
    } else {
      var m := |slots| - 1;
      BitsPrefix(slots[..m], n);
      assert slots[..m][..n] == slots[..n];
      assert forall i :: n <= i < m ==> slots[..m][i] == slots[i];
      if TotalBits(slots[..n]) == TotalBits(slots) {
        assert |slots[m].events| == 0;
      }
    }
  }

  // ---------------------------------------------------------------- growing under two locks

  /**
   * `addEvent` drops the read lock before it takes the write lock, so the table may have grown in
   * between and `contextResize` may cut it. The table by itself survives exactly when nothing
   * registered lies beyond the requested size; operations in flight are the subject of EventRace.
   */
  lemma LateResize(t: Table, fd: nat)
    requires TableOk(t)
    ensures TableOk(t.(slots := Resize(t.slots, GrowTo(fd)))) <==>
            GrowTo(fd) >= 32 && forall i :: GrowTo(fd) <= i < |t.slots| ==> t.slots[i].events == {}
  {
    var size := GrowTo(fd);
    if size > |t.slots| { ResizeUp(t, size); } else { ResizeDown(t, size); }
  }

  lemma ResizeUp(t: Table, size: nat)
    requires TableOk(t) && size > |t.slots|
    ensures TableOk(t.(slots := Resize(t.slots, size)))
  {
    BitsExtend(t.slots, FreshSlots(|t.slots|, size));
    assert forall i :: |t.slots| <= i < size ==> Resize(t.slots, size)[i].events == {};
  }

  lemma ResizeDown(t: Table, size: nat)
    requires TableOk(t) && size <= |t.slots|
    ensures TableOk(t.(slots := Resize(t.slots, size))) <==>
            size >= 32 && forall i :: size <= i < |t.slots| ==> t.slots[i].events == {}
  {
    BitsPrefix(t.slots, size);
  }

  /**
   * Two threads find 32 slots too few: growing for 100 and then for 40 loses the wait on 100. The kernel
   * still has it, but it can no longer be cancelled or deleted, and a new wait on 100 is refused.
   */
  lemma LateResizeLosesAnEvent()
    ensures var t := AddEvent(InitTable(), 100, READ, 0, FiberHandle(7), true).0;
            var cut := t.(slots := Resize(t.slots, GrowTo(40)));
            && TableOk(t) && READ in t.slots[100].events && !TableOk(cut)
            && 100 in cut.kernel && cut.kernel[100] == {READ}
            && (forall e, ok :: CancelEvent(cut, 100, e, ok).1 == Refused && DelEvent(cut, 100, e, ok).1 == Refused)
            && (forall e, scheduler, handle, ok :: AddEvent(cut, 100, e, scheduler, handle, ok).1 == Refused)
  {
    HundredRegistered();
    var t := AddEvent(InitTable(), 100, READ, 0, FiberHandle(7), true).0;
    LateResize(t, 40);
    CutOffRefuses(t.(slots := Resize(t.slots, GrowTo(40))));
  }

  lemma HundredRegistered()
    ensures var t := AddEvent(InitTable(), 100, READ, 0, FiberHandle(7), true).0;
            && TableOk(t) && |t.slots| == 150 && t.slots[100].events == {READ}
            && 100 in t.kernel && t.kernel[100] == {READ}
  {
    InitOk();
    AddBeyond(InitTable(), 100, READ, 0, FiberHandle(7));
  }

  /** A first wait on a descriptor that has no slot yet. */
  lemma AddBeyond(t: Table, fd: nat, e: Event, scheduler: nat, handle: Handle)
    requires TableOk(t) && |t.slots| <= fd
    ensures var t' := AddEvent(t, fd, e, scheduler, handle, true).0;
            && TableOk(t') && |t'.slots| == GrowTo(fd) > fd && t'.slots[fd].events == {e}
            && fd in t'.kernel && t'.kernel[fd] == {e}
  {
    AddOk(t, fd, e, scheduler, handle, true);
    GrownOk(t, fd);
    assert Grown(t.slots, fd)[fd].events == {};
  }

  lemma CutOffRefuses(t: Table)
    requires |t.slots| == 60 && 100 in t.kernel
    ensures forall e, ok :: CancelEvent(t, 100, e, ok).1 == Refused && DelEvent(t, 100, e, ok).1 == Refused
    ensures forall e, scheduler, handle, ok :: AddEvent(t, 100, e, scheduler, handle, ok).1 == Refused
  {
    assert Grown(t.slots, 100)[100].events == {};
  }

  // ---------------------------------------------------------------- preservation

  lemma InitOk()
    ensures TableOk(InitTable())
  {
    assert InitTable().slots == [] + FreshSlots(0, 32);
    BitsExtend([], FreshSlots(0, 32));
  }

  lemma GrownOk(t: Table, fd: nat)
    requires TableOk(t)
    ensures TableOk(t.(slots := Grown(t.slots, fd))) && fd < |Grown(t.slots, fd)|
    ensures t.slots <= Grown(t.slots, fd)
  {
    if fd >= |t.slots| {
      BitsExtend(t.slots, FreshSlots(|t.slots|, GrowTo(fd)));
    }
  }

  /** Rewriting one slot keeps the table when its bits, the kernel's set and the count move together. */
  lemma SlotUpdate(t: Table, fd: nat, c: FdContext, t': Table)
    requires TableOk(t) && fd < |t.slots|
    requires c.fd == fd && SlotOk(c) && t'.slots == t.slots[fd := c]
    requires t'.kernel == if c.events == {} then t.kernel - {fd} else t.kernel[fd := c.events]
    requires t'.pending == t.pending - |t.slots[fd].events| + |c.events|
    ensures TableOk(t')
  {
    BitsUpdate(t.slots, fd, c);
  }

  lemma AddOk(t: Table, fd: nat, e: Event, scheduler: nat, handle: Handle, ok: bool)
    requires TableOk(t)
    ensures var (t', out) := AddEvent(t, fd, e, scheduler, handle, ok);
            && TableOk(t')
            && (out == Aborted <==> fd < |t.slots| && e in t.slots[fd].events)
            && (out == Done <==> ok && !(fd < |t.slots| && e in t.slots[fd].events))
            && (out == Refused ==> t' == t.(slots := Grown(t.slots, fd)))
  {
    GrownOk(t, fd);
    AddInside(t.(slots := Grown(t.slots, fd)), fd, e, scheduler, handle, ok);
    GrownBits(t, fd, e);
  }

  /** The descriptor has its slot already. */
  lemma AddInside(t: Table, fd: nat, e: Event, scheduler: nat, handle: Handle, ok: bool)
    requires TableOk(t) && fd < |t.slots|
    ensures var (t', out) := AddEvent(t, fd, e, scheduler, handle, ok);
            && TableOk(t')
            && out == (if e in t.slots[fd].events then Aborted else if ok then Done else Refused)
            && (out == Refused ==> t' == t)
  {
    var (t', out) := AddEvent(t, fd, e, scheduler, handle, ok);
    if out == Done {
      SlotUpdate(t, fd, t'.slots[fd], t');
    }
  }

  lemma GrownBits(t: Table, fd: nat, e: Event)
    requires TableOk(t)
    ensures fd < |Grown(t.slots, fd)|
    ensures e in Grown(t.slots, fd)[fd].events <==> fd < |t.slots| && e in t.slots[fd].events
  {
    GrownOk(t, fd);
  }

  lemma DelOk(t: Table, fd: nat, e: Event, ok: bool)
    requires TableOk(t)
    ensures var (t', out) := DelEvent(t, fd, e, ok);
            && TableOk(t') && (out == Refused ==> t' == t) && t'.log == t.log
            && out == if ok && fd < |t.slots| && e in t.slots[fd].events then Done else Refused
  {
    var (t', out) := DelEvent(t, fd, e, ok);
    if out == Done {
      SlotUpdate(t, fd, t'.slots[fd], t');
    }
  }

  lemma CancelOk(t: Table, fd: nat, e: Event, ok: bool)
    requires TableOk(t)
    ensures var (t', out) := CancelEvent(t, fd, e, ok);
            && TableOk(t') && (out == Refused ==> t' == t)
            && out == if ok && fd < |t.slots| && e in t.slots[fd].events then Done else Refused
  {
    if ok && fd < |t.slots| && e in t.slots[fd].events { CancelDone(t, fd, e); }
  }

  lemma CancelDone(t: Table, fd: nat, e: Event)
    requires TableOk(t) && fd < |t.slots| && e in t.slots[fd].events
    ensures CancelEvent(t, fd, e, true).1 == Done && TableOk(CancelEvent(t, fd, e, true).0)
  {
    var left := t.slots[fd].events - {e};
    var t0 := t.(kernel := if left == {} then t.kernel - {fd} else t.kernel[fd := left]);
    TriggerOk(t0, fd, e);
    var t' := Trigger(t0, fd, e);
    assert CancelEvent(t, fd, e, true) == (t', Done);
    SlotUpdate(t, fd, t'.slots[fd], t');
  }

  /** On a well-formed slot a set bit can be triggered; the count and the bits move together. */
  lemma TriggerOk(t: Table, fd: nat, e: Event)
    requires fd < |t.slots| && SlotOk(t.slots[fd]) && e in t.slots[fd].events
    ensures CanTrigger(t.slots[fd], e)
    ensures var t' := Trigger(t, fd, e);
            var c, c' := t.slots[fd], t'.slots[fd];
            && t'.slots == t.slots[fd := c'] && t'.kernel == t.kernel
            && SlotOk(c') && c'.fd == c.fd && c'.events == c.events - {e}
            && t'.pending - |c'.events| == t.pending - |c.events|
  {}

  /** Triggering the wanted bits one after the other removes exactly them. */
  lemma TriggerTwo(t: Table, fd: nat, bits: set<Event>)
    requires fd < |t.slots| && SlotOk(t.slots[fd]) && bits <= t.slots[fd].events
    ensures var r := TriggerIf(READ in bits, t, fd, READ);
            && r.Some? && TriggerIf(WRITE in bits, r.value, fd, WRITE).Some?
            && var t' := TriggerIf(WRITE in bits, r.value, fd, WRITE).value;
               var c, c' := t.slots[fd], t'.slots[fd];
               && t'.slots == t.slots[fd := c'] && t'.kernel == t.kernel
               && SlotOk(c') && c'.fd == c.fd && c'.events == c.events - bits
               && t'.pending - |c'.events| == t.pending - |c.events|
  {
    if READ in bits { TriggerOk(t, fd, READ); }
    var t1 := TriggerIf(READ in bits, t, fd, READ).value;
    if WRITE in bits { TriggerOk(t1, fd, WRITE); }
    var t2 := TriggerIf(WRITE in bits, t1, fd, WRITE).value;
    assert t2.slots[fd].events == t.slots[fd].events - bits by {
      forall e: Event ensures e in t2.slots[fd].events <==> e in t.slots[fd].events - bits {
        match e case READ => case WRITE =>
      }
    }
  }

  lemma CancelAllOk(t: Table, fd: nat, ok: bool)
    requires TableOk(t)
    ensures var (t', out) := CancelAll(t, fd, ok);
            && TableOk(t') && (out == Refused ==> t' == t)
            && out == if ok && fd < |t.slots| && t.slots[fd].events != {} then Done else Refused
  {
    if fd < |t.slots| && t.slots[fd].events != {} && EpollCtl(t.kernel, DEL, fd, {}, ok).Some? {
      var t0 := t.(kernel := t.kernel - {fd});
      var bits := t.slots[fd].events;
      TriggerTwo(t0, fd, bits);
      var t1 := TriggerIf(READ in bits, t0, fd, READ).value;
      assert WRITE in t1.slots[fd].events <==> WRITE in bits;
      var t' := CancelAll(t, fd, ok).0;
      assert bits - bits == {};
      SlotUpdate(t, fd, t'.slots[fd], t');
    }
  }

  /** The report covers a registered bit and also one that is not registered any more. */
  predicate PartlyRegistered(c: FdContext, reported: set<Event>, errHup: bool) {
    && !(reported <= c.events)
    && (reported * c.events != {} || (errHup && c.events != {}))
  }

  /** A delivery aborts exactly when `epoll_ctl` succeeds on a report that is only partly registered. */
  lemma DeliverOk(t: Table, fd: nat, reported: set<Event>, errHup: bool, ok: bool)
    requires TableOk(t)
    ensures var (t', out) := Deliver(t, fd, reported, errHup, ok);
            && TableOk(t') && (out == Refused ==> t' == t)
            && (out == Aborted <==> ok && fd < |t.slots| && PartlyRegistered(t.slots[fd], reported, errHup))
  {
    if fd < |t.slots| && t.slots[fd].events * RealEvents(t.slots[fd], reported, errHup) != {} && ok {
      DeliverAccepted(t, fd, reported, errHup);
    }
  }

  /** A report read before delEvent removed one of its bits aborts the program. */
  lemma StaleReport(t: Table, fd: nat)
    requires TableOk(t) && fd < |t.slots| && t.slots[fd].events == {READ, WRITE}
    ensures fd in t.kernel && t.kernel[fd] == {READ, WRITE}   // so the kernel may report both
    ensures var t' := DelEvent(t, fd, WRITE, true).0;
            TableOk(t') && Deliver(t', fd, {READ, WRITE}, false, true).1 == Aborted
  {
    DelOk(t, fd, WRITE, true);
    var t' := DelEvent(t, fd, WRITE, true).0;
    assert t'.slots[fd].events == {READ};
    assert READ in {READ, WRITE} * t'.slots[fd].events;
    DeliverOk(t', fd, {READ, WRITE}, false, true);
  }

  /** Two waits on descriptor 5, one of them removed again. */
  lemma StaleReportAborts(r: Handle, w: Handle)
    ensures var t := AddEvent(AddEvent(InitTable(), 5, READ, 0, r, true).0, 5, WRITE, 0, w, true).0;
            && TableOk(t) && 5 in t.kernel && t.kernel[5] == {READ, WRITE}
            && Deliver(DelEvent(t, 5, WRITE, true).0, 5, {READ, WRITE}, false, true).1 == Aborted
  {
    InitOk();
    TwoWaits(InitTable(), 5, r, w);
    StaleReport(AddEvent(AddEvent(InitTable(), 5, READ, 0, r, true).0, 5, WRITE, 0, w, true).0, 5);
  }

  lemma TwoWaits(t: Table, fd: nat, r: Handle, w: Handle)
    requires TableOk(t) && fd < |t.slots| && t.slots[fd].events == {}
    ensures var t' := AddEvent(AddEvent(t, fd, READ, 0, r, true).0, fd, WRITE, 0, w, true).0;
            TableOk(t') && fd < |t'.slots| && t'.slots[fd].events == {READ, WRITE}
  {
    var t1 := AddEvent(t, fd, READ, 0, r, true).0;
    AddOk(t, fd, READ, 0, r, true);
    AddBits(t, fd, READ, 0, r);
    AddOk(t1, fd, WRITE, 0, w, true);
    AddBits(t1, fd, WRITE, 0, w);
  }

  lemma AddBits(t: Table, fd: nat, e: Event, scheduler: nat, handle: Handle)
    requires TableOk(t) && fd < |t.slots| && e !in t.slots[fd].events
    ensures var t' := AddEvent(t, fd, e, scheduler, handle, true).0;
            |t'.slots| == |t.slots| && t'.slots[fd].events == t.slots[fd].events + {e}
  {}

  lemma DeliverAccepted(t: Table, fd: nat, reported: set<Event>, errHup: bool)
    requires TableOk(t) && fd < |t.slots|
    requires t.slots[fd].events * RealEvents(t.slots[fd], reported, errHup) != {}
    ensures var (t', out) := Deliver(t, fd, reported, errHup, true);
            if RealEvents(t.slots[fd], reported, errHup) <= t.slots[fd].events then out == Done && TableOk(t')
            else out == Aborted && t' == t
  {
    var c := t.slots[fd];
    var actual := RealEvents(c, reported, errHup);
    var left := c.events - actual;
    var op := if left != {} then MOD else DEL;
    var kernel := EpollCtl(t.kernel, op, fd, left, true);
    assert kernel == Some(if left == {} then t.kernel - {fd} else t.kernel[fd := left]);
    var t0 := t.(kernel := kernel.value);
    if actual <= c.events {
      TriggerTwo(t0, fd, actual);
      DeliveredOk(t, fd, actual, t0, Deliver(t, fd, reported, errHup, true).0);
    } else {
      PartialAborts(t0, fd, actual);
    }
  }

  lemma DeliveredOk(t: Table, fd: nat, bits: set<Event>, t0: Table, t': Table)
    requires TableOk(t) && fd < |t.slots| && bits <= t.slots[fd].events
    requires var left := t.slots[fd].events - bits;
             t0 == t.(kernel := if left == {} then t.kernel - {fd} else t.kernel[fd := left])
    requires var t1 := TriggerIf(READ in bits, t0, fd, READ);
             t1.Some? && TriggerIf(WRITE in bits, t1.value, fd, WRITE) == Some(t')
    ensures TableOk(t')
  {
    TriggerTwo(t0, fd, bits);
    SlotUpdate(t, fd, t'.slots[fd], t');
  }

  lemma PartialAborts(t: Table, fd: nat, bits: set<Event>)
    requires fd < |t.slots| && SlotOk(t.slots[fd]) && !(bits <= t.slots[fd].events)
    ensures var r := TriggerIf(READ in bits, t, fd, READ);
            r.None? || TriggerIf(WRITE in bits, r.value, fd, WRITE).None?
  {
    var e :| e in bits && e !in t.slots[fd].events;
    match e
    case READ =>
    case WRITE =>
      if READ in bits && READ in t.slots[fd].events { TriggerOk(t, fd, READ); }
  }
}
