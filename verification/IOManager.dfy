/** The IO manager in its imperative form: context objects updated in place, a growing vector of them. */
module IOManager {
  import opened Common
  import opened EventTable
  import opened EventDelivery
  import R = EventRuns

  class FdSlot {
    var fd: nat
    var events: set<Event>
    var read: EventContext
    var write: EventContext

    constructor (fd: nat)
      ensures Value() == FdContext(fd, {}, EMPTY, EMPTY)
    {
      this.fd, events, read, write := fd, {}, EMPTY, EMPTY;
    }

    ghost function Value(): FdContext
      reads this
    {
      FdContext(fd, events, read, write)
    }

    function GetContext(e: Event): EventContext
      reads this
      ensures GetContext(e) == Context(Value(), e)
    {
      match e case READ => read case WRITE => write
    }

    method SetSlot(e: Event, x: EventContext)
      modifies this`read, this`write
      ensures Value() == SetContext(old(Value()), e, x)
    {
      if e == READ { read := x; } else { write := x; }
    }

    /** Moves the handle out of the slot; `handed` is None when the assertion fails. */
    method TriggerEvent(e: Event) returns (handed: Option<Handed>)
      modifies this
      ensures handed.Some? <==> old(CanTrigger(Value(), e))
      ensures handed.Some? ==> (Value(), handed.value) == TriggerContext(old(Value()), e)
    {
      var x := GetContext(e);
      if !(e in events && x.scheduler.Some? && (x.cb.Some? || x.fiber.Some?)) {
        return None;
      }
      events := events - {e};
      if x.cb.Some? {
        handed := Some(Handed(x.scheduler.value, CallbackHandle(x.cb.value)));
        x := x.(cb := None);
      } else {
        handed := Some(Handed(x.scheduler.value, FiberHandle(x.fiber.value)));
        x := x.(fiber := None);
      }
      SetSlot(e, x.(scheduler := None));
    }
  }

  lemma AddAfterGrowing(t: Table, fd: nat, e: Event, scheduler: nat, handle: Handle, ok: bool)
    requires fd < |Grown(t.slots, fd)|
    ensures var r, r1 := AddEvent(t, fd, e, scheduler, handle, ok),
                         AddEvent(t.(slots := Grown(t.slots, fd)), fd, e, scheduler, handle, ok);
            r.1 == r1.1 && (r.1 != Aborted ==> r.0 == r1.0)
  {}

  class IOManager {
    var contexts: seq<FdSlot>
    var kernel: map<nat, set<Event>>
    var pending: int
    var log: seq<Handed>

    ghost predicate Valid()
      reads this
    {
      forall i, j :: 0 <= i < j < |contexts| ==> contexts[i] != contexts[j]
    }

    ghost function Slots(): (r: seq<FdContext>)
      reads this, contexts
      ensures |r| == |contexts| && forall i :: 0 <= i < |r| ==> r[i] == contexts[i].Value()
    {
      seq(|contexts|, i requires 0 <= i < |contexts| reads this, contexts => contexts[i].Value())
    }

    ghost function View(): Table
      reads this, contexts
    {
      Table(Slots(), kernel, pending, log)
    }

    constructor ()
      ensures Valid() && View() == InitTable() && fresh(contexts)
    {
      contexts, kernel, pending, log := [], map[], 0, [];
      new;
      ContextResize(32);
      assert Slots() == Resize([], 32);
    }

    /** Cuts or extends the vector; places that exist keep their context object. */
    method ContextResize(size: nat)
      requires Valid()
      modifies this`contexts
      ensures Valid() && Slots() == Resize(old(Slots()), size)
      ensures forall i :: 0 <= i < |contexts| ==>
                (if i < |old(contexts)| then contexts[i] == old(contexts[i]) else fresh(contexts[i]))
    {
      if size <= |contexts| {
        contexts := contexts[..size];
      }
      while |contexts| < size
        invariant Valid() && |contexts| <= size
        invariant |contexts| >= |old(contexts)| || |contexts| == size
        invariant forall i :: 0 <= i < |contexts| ==>
                    (if i < |old(contexts)| then contexts[i] == old(contexts[i]) else fresh(contexts[i]))
        invariant forall i :: 0 <= i < |contexts| ==>
                    contexts[i].Value() ==
                      if i < |old(contexts)| then old(contexts[i].Value()) else FdContext(i, {}, EMPTY, EMPTY)
      {
        var slot := new FdSlot(|contexts|);
        contexts := contexts + [slot];
      }
      assert |old(Slots())| == |old(contexts)|;
    }

    method EpollControl(op: Op, fd: nat, bits: set<Event>, ok: bool) returns (failed: bool)
      modifies this`kernel
      ensures failed <==> EpollCtl(old(kernel), op, fd, bits, ok).None?
      ensures kernel == if failed then old(kernel) else EpollCtl(old(kernel), op, fd, bits, ok).value
    {
      match EpollCtl(kernel, op, fd, bits, ok)
      case None => return true;
      case Some(k) => kernel := k; return false;
    }

    /** The locked part of addEvent, once the descriptor's context exists. */
    method AddAt(fd: nat, event: Event, scheduler: nat, handle: Handle, ok: bool) returns (out: Outcome)
      requires Valid() && fd < |contexts|
      modifies this`kernel, this`pending, contexts[fd]
      ensures Valid()
      ensures out == EventTable.AddEvent(old(View()), fd, event, scheduler, handle, ok).1
      ensures out != Aborted ==> View() == EventTable.AddEvent(old(View()), fd, event, scheduler, handle, ok).0
    {
      var slot := contexts[fd];
      if event in slot.events { return Aborted; }
      var failed := EpollControl(if slot.events != {} then MOD else ADD, fd, slot.events + {event}, ok);
      assert Slots() == old(Slots());
      if failed { return Refused; }
      if slot.GetContext(event) != EMPTY { return Aborted; }
      pending := pending + 1;
      slot.events := slot.events + {event};
      match handle {
        case CallbackHandle(id) => slot.SetSlot(event, EventContext(Some(scheduler), None, Some(id)));
        case FiberHandle(id) => slot.SetSlot(event, EventContext(Some(scheduler), Some(id), None));
      }
      assert Slots() == old(Slots())[fd := slot.Value()];
      return Done;
    }

    /** Lookup and growth count as one step here; EventRace takes them apart. */
    method AddEvent(fd: nat, event: Event, scheduler: nat, handle: Handle, ok: bool) returns (out: Outcome)
      requires Valid()
      modifies this, contexts
      ensures Valid()
      ensures out == EventTable.AddEvent(old(View()), fd, event, scheduler, handle, ok).1
      ensures out != Aborted ==> View() == EventTable.AddEvent(old(View()), fd, event, scheduler, handle, ok).0
    {
      if fd >= |contexts| {
        ContextResize(fd * 3 / 2);
      }
      ghost var t1 := old(View()).(slots := Grown(old(Slots()), fd));
      assert View() == t1;
      if fd >= |contexts| { return Aborted; }
      AddAfterGrowing(old(View()), fd, event, scheduler, handle, ok);
      out := AddAt(fd, event, scheduler, handle, ok);
    }

    method DelEvent(fd: nat, event: Event, ok: bool) returns (out: Outcome)
      requires Valid()
      modifies this, contexts
      ensures Valid() && contexts == old(contexts)
      ensures (View(), out) == EventTable.DelEvent(old(View()), fd, event, ok)
    {
      if |contexts| <= fd { return Refused; }
      var slot := contexts[fd];
      if event !in slot.events { return Refused; }
      var left := slot.events - {event};
      var failed := EpollControl(if left != {} then MOD else DEL, fd, left, ok);
      if failed {
        assert Slots() == old(Slots());
        return Refused;
      }
      pending := pending - 1;
      slot.events := left;
      slot.SetSlot(event, EMPTY);
      assert Slots() == old(Slots())[fd := slot.Value()];
      return Done;
    }

    /** Trigger and count down; false when the assertion in triggerEvent fails. */
    method TriggerAt(fd: nat, event: Event, wanted: bool) returns (passed: bool)
      requires Valid() && fd < |contexts|
      modifies this`log, this`pending, contexts[fd]
      ensures Valid()
      ensures passed <==> TriggerIf(wanted, old(View()), fd, event).Some?
      ensures passed ==> View() == TriggerIf(wanted, old(View()), fd, event).value
    {
      if !wanted { return true; }
      var handed := contexts[fd].TriggerEvent(event);
      if handed.None? { return false; }
      log := log + [handed.value];
      pending := pending - 1;
      assert Slots() == old(Slots())[fd := contexts[fd].Value()];
      return true;
    }

    method CancelEvent(fd: nat, event: Event, ok: bool) returns (out: Outcome)
      requires Valid()
      modifies this, contexts
      ensures Valid() && contexts == old(contexts)
      ensures out == EventTable.CancelEvent(old(View()), fd, event, ok).1
      ensures out != Aborted ==> View() == EventTable.CancelEvent(old(View()), fd, event, ok).0
    {
      if |contexts| <= fd { return Refused; }
      if event !in contexts[fd].events { return Refused; }
      var left := contexts[fd].events - {event};
      var failed := EpollControl(if left != {} then MOD else DEL, fd, left, ok);
      assert Slots() == old(Slots());
      if failed { return Refused; }
      var passed := TriggerAt(fd, event, true);
      return if passed then Done else Aborted;
    }

    method CancelAll(fd: nat, ok: bool) returns (out: Outcome)
      requires Valid()
      modifies this, contexts
      ensures Valid() && contexts == old(contexts)
      ensures out == EventTable.CancelAll(old(View()), fd, ok).1
      ensures out != Aborted ==> View() == EventTable.CancelAll(old(View()), fd, ok).0
    {
      if |contexts| <= fd { return Refused; }
      if contexts[fd].events == {} { return Refused; }
      var failed := EpollControl(DEL, fd, {}, ok);
      assert Slots() == old(Slots());
      if failed { return Refused; }
      var passed := TriggerAt(fd, READ, READ in contexts[fd].events);
      if !passed { return Aborted; }
      passed := TriggerAt(fd, WRITE, WRITE in contexts[fd].events);
      if !passed || contexts[fd].events != {} { return Aborted; }
      return Done;
    }

    method Deliver(r: Report) returns (out: Outcome)
      requires Valid()
      modifies this, contexts
      ensures Valid() && contexts == old(contexts)
      ensures out == EventTable.Deliver(old(View()), r.fd, r.reported, r.errHup, r.ok).1
      ensures out != Aborted ==> View() == EventTable.Deliver(old(View()), r.fd, r.reported, r.errHup, r.ok).0
    {
      if |contexts| <= r.fd { return Refused; }
      var slot := contexts[r.fd];
      var bits := r.reported;
      if r.errHup { bits := bits + slot.events; }
      assert bits == RealEvents(slot.Value(), r.reported, r.errHup);
      if slot.events * bits == {} { return Refused; }
      var left := slot.events - bits;
      var failed := EpollControl(if left != {} then MOD else DEL, r.fd, left, r.ok);
      assert Slots() == old(Slots());
      if failed { return Refused; }
      var passed := TriggerAt(r.fd, READ, READ in bits);
      if !passed { return Aborted; }
      passed := TriggerAt(r.fd, WRITE, WRITE in bits);
      return if passed then Done else Aborted;
    }

    /**
     * The loop over the reports of one `epoll_wait`: each report is delivered to the table the one before
     * left, `tables` being what they find, and a failing assertion ends the loop.
     */
    method DeliverReports(reports: seq<Report>) returns (out: Outcome, ghost tables: seq<Table>)
      requires Valid()
      modifies this, contexts
      ensures Valid() && contexts == old(contexts)
      ensures out != Refused && tables != [] && tables[0] == old(View())
      ensures out == Done ==> Delivered(tables, reports) && View() == tables[|reports|]
      ensures out == Done && TableOk(old(View())) ==> log == old(log) + AllHandles(tables, reports, |reports|)
      ensures out == Aborted ==>
                && |tables| <= |reports| && Delivered(tables, reports[..|tables| - 1])
                && R.Result(tables[|tables| - 1], AsAction(reports[|tables| - 1])).1 == Aborted
    {
      var i := 0;
      tables := [View()];
      while i < |reports|
        invariant 0 <= i <= |reports| && Valid() && contexts == old(contexts)
        invariant |tables| == i + 1 && tables[0] == old(View()) && tables[i] == View()
        invariant Delivered(tables, reports[..i])
      {
        var r := Deliver(reports[i]);
        if r == Aborted {
          return Aborted, tables;
        }
        DeliveredOn(tables, reports[..i], reports[i], View());
        assert reports[..i + 1] == reports[..i] + [reports[i]];
        tables := tables + [View()];
        i := i + 1;
      }
      assert reports[..i] == reports;
      if TableOk(tables[0]) { LogOfBatch(tables, reports); }
      return Done, tables;
    }
  }
}
