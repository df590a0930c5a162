/** The scheduler's queue operations in their imperative form (hx_sylar/scheduler.h, scheduler.cc). */
module Scheduler {
  import opened Common
  import opened SchedulerMachine

  /** The non-null works of a list of slots as unpinned entries, in order. */
  function Entries(slots: seq<Option<Work>>): seq<Item> {
    if slots == [] then []
    else Entries(slots[..|slots| - 1]) +
         match slots[|slots| - 1]
         case Some(work) => [Item(work, -1)]
         case None => []
  }

  function NonNull(slots: seq<Option<Work>>): nat {
    if slots == [] then 0 else NonNull(slots[..|slots| - 1]) + if slots[|slots| - 1].Some? then 1 else 0
  }

  /** There is one entry per non-null slot, and that of slot `i` stands behind those of the slots before it. */
  lemma {:induction false} EntriesExact(slots: seq<Option<Work>>, i: nat)
    requires i < |slots|
    ensures |Entries(slots)| == NonNull(slots)
    ensures slots[i].Some? ==>
              NonNull(slots[..i]) < |Entries(slots)| && Entries(slots)[NonNull(slots[..i])] == Item(slots[i].value, -1)
  {
    var m := |slots| - 1;
    if m > 0 { EntriesExact(slots[..m], if i < m then i else 0); }
    if i < m { assert slots[..m][..i] == slots[..i]; }
  }

  predicate PinnedElsewhere(it: Item, thread: nat) { it.thread != -1 && it.thread != thread }

  class Scheduler {
    var queue: seq<Item>                  // m_fibers_
    var fibers: map<FiberId, Fiber>       // the fibers' m_state, read by the scan
    var activeThreadCount: int

    constructor ()
      ensures queue == [] && fibers == map[] && activeThreadCount == 0
    {
      queue, fibers, activeThreadCount := [], map[], 0;
    }

    /** A null fiber or function is dropped; the caller must tickle when the queue was empty. */
    method ScheduleNoLock(work: Option<Work>, thread: int) returns (needTickle: bool)
      modifies this`queue
      ensures needTickle <==> old(queue) == []
      ensures queue == old(queue) + if work.Some? then [Item(work.value, thread)] else []
    {
      needTickle := queue == [];
      if work.Some? {
        queue := queue + [Item(work.value, thread)];
      }
    }

    /** Batch schedule: every handle is moved out of its slot and appended in order. */
    method ScheduleBatch(slots: array<Option<Work>>) returns (needTickle: bool)
      modifies this`queue, slots
      ensures queue == old(queue) + Entries(old(slots[..]))
      ensures forall i :: 0 <= i < slots.Length ==> slots[i] == None
      ensures needTickle <==> old(queue) == [] && slots.Length > 0
    {
      needTickle := false;
      var i := 0;
      assert old(slots[..0]) == [];
      while i < slots.Length
        invariant 0 <= i <= slots.Length
        invariant forall j :: 0 <= j < i ==> slots[j] == None
        invariant forall j :: i <= j < slots.Length ==> slots[j] == old(slots[j])
        invariant queue == old(queue) + Entries(old(slots[..i]))
        invariant needTickle <==> old(queue) == [] && i > 0
      {
        var work := slots[i];
        slots[i] := None;
        var empty := ScheduleNoLock(work, -1);
        needTickle := empty || needTickle;
        assert old(slots[..i + 1])[..i] == old(slots[..i]);
        i := i + 1;
      }
      assert old(slots[..i]) == old(slots[..]);
    }

    /**
     * The locked scan of `run`. The result is the first entry that worker `thread` may take; the
     * others keep their order. `tickleMe` reports work left for somebody else.
     */
    method TakeTask(thread: nat) returns (ft: Option<Item>, tickleMe: bool)
      modifies this`queue, this`activeThreadCount
      ensures var k := Scan(old(queue), thread, fibers);
              if k < |old(queue)| then
                && ft == Some(old(queue)[k]) && queue == RemoveAt(old(queue), k)
                && activeThreadCount == old(activeThreadCount) + 1
                && (tickleMe <==>
                      k + 1 < |old(queue)| || exists i :: 0 <= i < k && PinnedElsewhere(old(queue)[i], thread))
              else
                && ft == None && queue == old(queue) && activeThreadCount == old(activeThreadCount)
                && (tickleMe <==> exists i :: 0 <= i < k && PinnedElsewhere(old(queue)[i], thread))
    {
      ft, tickleMe := None, false;
      var it := 0;
      while it < |queue|
        invariant 0 <= it <= |queue| && queue == old(queue) && activeThreadCount == old(activeThreadCount)
        invariant ft == None
        invariant forall i :: 0 <= i < it ==> !Eligible(queue[i], thread, fibers)
        invariant tickleMe <==> exists i :: 0 <= i < it && PinnedElsewhere(queue[i], thread)
      {
        if queue[it].thread != -1 && queue[it].thread != thread {
          assert PinnedElsewhere(queue[it], thread);
          it := it + 1;
          tickleMe := true;
          continue;
        }
        if queue[it].work.RunFiber? && queue[it].work.fiber in fibers && fibers[queue[it].work.fiber].state == EXEC {
          it := it + 1;
          continue;
        }
        ft := Some(queue[it]);
        tickleMe := tickleMe || it + 1 < |queue|;
        queue := RemoveAt(queue, it);
        activeThreadCount := activeThreadCount + 1;
        ScanIs(old(queue), thread, fibers, it);
        return;
      }
      ScanIs(queue, thread, fibers, it);
    }
  }

  /** The scan's result is determined by being the first eligible index. */
  lemma ScanIs(q: seq<Item>, w: nat, fibers: map<FiberId, Fiber>, k: nat)
    requires k <= |q| && (k < |q| ==> Eligible(q[k], w, fibers))
    requires forall i :: 0 <= i < k ==> !Eligible(q[i], w, fibers)
    ensures Scan(q, w, fibers) == k
  {}
}
