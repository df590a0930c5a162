/**
 * Runs of the event table with a history of every successful registration: each one is still
 * registered, was removed by delEvent, or was handed to its scheduler exactly once.
 */
module EventRuns {
  import opened Common
  import opened EventTable

  datatype Registration = Registration(fd: nat, event: Event, scheduler: nat, handle: Handle)

  /** What became of a registration; `Given(k)` names its entry in the table's log. */
  datatype Fate = Registered | Removed | Given(k: nat)

  /** `tokens[k]` is the registration that log entry `k` resumed; `owner` the one behind each set bit. */
  datatype History =
    History(issued: seq<Registration>, fate: seq<Fate>, tokens: seq<nat>, owner: map<(nat, Event), nat>)

  datatype System = System(table: Table, hist: History)

  datatype Action =
    | Add(fd: nat, event: Event, scheduler: nat, handle: Handle, ok: bool)
    | Del(fd: nat, event: Event, ok: bool)
    | Cancel(fd: nat, event: Event, ok: bool)
    | CancelBoth(fd: nat, ok: bool)
    | Report(fd: nat, reported: set<Event>, errHup: bool, ok: bool)

  function Result(t: Table, a: Action): (Table, Outcome) {
    match a
    case Add(fd, e, scheduler, handle, ok) => AddEvent(t, fd, e, scheduler, handle, ok)
    case Del(fd, e, ok) => DelEvent(t, fd, e, ok)
    case Cancel(fd, e, ok) => CancelEvent(t, fd, e, ok)
    case CancelBoth(fd, ok) => CancelAll(t, fd, ok)
    case Report(fd, reported, errHup, ok) => Deliver(t, fd, reported, errHup, ok)
  }

  function Give(h: History, fd: nat, e: Event): History {
    if (fd, e) !in h.owner || h.owner[(fd, e)] >= |h.fate| then h else
    var k := h.owner[(fd, e)];
    h.(fate := h.fate[k := Given(|h.tokens|)], tokens := h.tokens + [k], owner := h.owner - {(fd, e)})
  }

  /** The bits of `fd` that `t` has and `t'` has not were handed over, READ before WRITE. */
  function GiveCleared(h: History, fd: nat, t: Table, t': Table): History
    requires fd < |t.slots| && fd < |t'.slots|
  {
    var gone := t.slots[fd].events - t'.slots[fd].events;
    var h1 := if READ in gone then Give(h, fd, READ) else h;
    if WRITE in gone then Give(h1, fd, WRITE) else h1
  }

  /** Which registration each successful action makes, removes or hands over. */
  function Record(h: History, a: Action, t: Table, t': Table): History {
    match a
    case Add(fd, e, scheduler, handle, _) =>
      h.(issued := h.issued + [Registration(fd, e, scheduler, handle)], fate := h.fate + [Registered],
         owner := h.owner[(fd, e) := |h.issued|])
    case Del(fd, e, _) =>
      if (fd, e) !in h.owner || h.owner[(fd, e)] >= |h.fate| then h
      else h.(fate := h.fate[h.owner[(fd, e)] := Removed], owner := h.owner - {(fd, e)})
    case _ =>
      if a.fd < |t.slots| && a.fd < |t'.slots| then GiveCleared(h, a.fd, t, t') else h
  }

  function InitSystem(): System { System(InitTable(), History([], [], [], map[])) }

  /** An aborting action ends the program, so runs contain none. */
  predicate Enabled(s: System, a: Action) { Result(s.table, a).1 != Aborted }

  function Apply(s: System, a: Action): System {
    var (t', out) := Result(s.table, a);
    System(t', if out == Done then Record(s.hist, a, s.table, t') else s.hist)
  }

  ghost predicate IsRun(states: seq<System>, acts: seq<Action>) {
    && |states| == |acts| + 1 && states[0] == InitSystem()
    && forall i :: 0 <= i < |acts| ==> Enabled(states[i], acts[i]) && states[i + 1] == Apply(states[i], acts[i])
  }

  // ---------------------------------------------------------------- the invariant

  predicate Holds(c: FdContext, r: Registration) {
    && r.event in c.events
    && Context(c, r.event) ==
         match r.handle
         case FiberHandle(id) => EventContext(Some(r.scheduler), Some(id), None)
         case CallbackHandle(id) => EventContext(Some(r.scheduler), None, Some(id))
  }

  /** Every set bit has an owner, which is registered and whose handle is in the slot. */
  ghost predicate OwnersOk(t: Table, h: History)
    requires |h.fate| == |h.issued|
  {
    && (forall fd: nat, e :: (fd, e) in h.owner <==> fd < |t.slots| && e in t.slots[fd].events)
    && (forall fd: nat, e :: (fd, e) in h.owner ==>
          && h.owner[(fd, e)] < |h.issued| && h.fate[h.owner[(fd, e)]] == Registered
          && h.issued[h.owner[(fd, e)]].fd == fd && h.issued[h.owner[(fd, e)]].event == e
          && Holds(t.slots[fd], h.issued[h.owner[(fd, e)]]))
    && (forall j :: 0 <= j < |h.issued| && h.fate[j] == Registered ==>
          (h.issued[j].fd, h.issued[j].event) in h.owner && h.owner[(h.issued[j].fd, h.issued[j].event)] == j)
  }

  /** The log entries and the handed-over registrations correspond one to one. */
  ghost predicate LogOk(t: Table, h: History)
    requires |h.fate| == |h.issued|
  {
    && |h.tokens| == |t.log|
    && (forall k :: 0 <= k < |h.tokens| ==>
          && h.tokens[k] < |h.issued| && h.fate[h.tokens[k]] == Given(k)
          && t.log[k] == Handed(h.issued[h.tokens[k]].scheduler, h.issued[h.tokens[k]].handle))
    && (forall j :: 0 <= j < |h.issued| && h.fate[j].Given? ==> h.fate[j].k < |h.tokens| && h.tokens[h.fate[j].k] == j)
  }

  function RemovedCount(fate: seq<Fate>): nat {
    if fate == [] then 0 else RemovedCount(fate[..|fate| - 1]) + if fate[|fate| - 1] == Removed then 1 else 0
  }

  /** The last line is conservation: issued = registered + handed over + removed. */
  ghost predicate HistOk(t: Table, h: History) {
    && |h.fate| == |h.issued| && OwnersOk(t, h) && LogOk(t, h)
    && |h.issued| == t.pending + |t.log| + RemovedCount(h.fate)
  }

  ghost predicate Inv(s: System) {
    TableOk(s.table) && HistOk(s.table, s.hist)
  }

  lemma {:induction false} RemovedUpdate(fate: seq<Fate>, j: nat, x: Fate)
    requires j < |fate| && fate[j] != Removed
    ensures RemovedCount(fate[j := x]) == RemovedCount(fate) + if x == Removed then 1 else 0
  {
    var n := |fate| - 1;
    if j == n {
      assert fate[j := x][..n] == fate[..n];
    } else {
      RemovedUpdate(fate[..n], j, x);
      assert fate[j := x][..n] == fate[..n][j := x];
    }
  }

  // ---------------------------------------------------------------- one trigger

  lemma TriggerKeeps(t: Table, h: History, fd: nat, e: Event)
    requires fd < |t.slots| && SlotOk(t.slots[fd]) && e in t.slots[fd].events && HistOk(t, h)
    ensures CanTrigger(t.slots[fd], e) && HistOk(Trigger(t, fd, e), Give(h, fd, e))
  {
    TriggerOk(t, fd, e);
    var k := h.owner[(fd, e)];
    RemovedUpdate(h.fate, k, Given(|h.tokens|));
    TriggerOwners(t, h, fd, e);
    TriggerLog(t, h, fd, e);
  }

  lemma TriggerOwners(t: Table, h: History, fd: nat, e: Event)
    requires fd < |t.slots| && SlotOk(t.slots[fd]) && e in t.slots[fd].events && CanTrigger(t.slots[fd], e)
             && HistOk(t, h)
    ensures |Give(h, fd, e).fate| == |Give(h, fd, e).issued| && OwnersOk(Trigger(t, fd, e), Give(h, fd, e))
  {
    var k := h.owner[(fd, e)];
    var h' := Give(h, fd, e);
    assert forall d: nat, x :: (d, x) in h'.owner ==> (d, x) in h.owner && h'.owner[(d, x)] != k;
  }

  lemma TriggerLog(t: Table, h: History, fd: nat, e: Event)
    requires fd < |t.slots| && SlotOk(t.slots[fd]) && e in t.slots[fd].events && CanTrigger(t.slots[fd], e)
             && HistOk(t, h)
    ensures |Give(h, fd, e).fate| == |Give(h, fd, e).issued| && LogOk(Trigger(t, fd, e), Give(h, fd, e))
  {
    var k := h.owner[(fd, e)];
    assert Trigger(t, fd, e).log == t.log + [Handed(h.issued[k].scheduler, h.issued[k].handle)];
  }

  lemma TriggerTwoKeeps(t: Table, h: History, fd: nat, bits: set<Event>)
    requires fd < |t.slots| && SlotOk(t.slots[fd]) && bits <= t.slots[fd].events && HistOk(t, h)
    ensures var r := TriggerIf(READ in bits, t, fd, READ);
            && r.Some? && TriggerIf(WRITE in bits, r.value, fd, WRITE).Some?
            && var h1 := if READ in bits then Give(h, fd, READ) else h;
               HistOk(TriggerIf(WRITE in bits, r.value, fd, WRITE).value,
                      if WRITE in bits then Give(h1, fd, WRITE) else h1)
  {
    TriggerTwo(t, fd, bits);
    if READ in bits {
      TriggerKeeps(t, h, fd, READ);
      TriggerOk(t, fd, READ);
    }
    var t1 := TriggerIf(READ in bits, t, fd, READ).value;
    var h1 := if READ in bits then Give(h, fd, READ) else h;
    if WRITE in bits { TriggerKeeps(t1, h1, fd, WRITE); }
  }

  // ---------------------------------------------------------------- every action

  lemma AddHist(t: Table, h: History, r: Registration, t': Table)
    requires HistOk(t, h) && r.fd < |t.slots| && r.event !in t.slots[r.fd].events
    requires |t'.slots| == |t.slots| && t'.slots == t.slots[r.fd := t'.slots[r.fd]]
    requires t'.slots[r.fd].events == t.slots[r.fd].events + {r.event}
    requires forall x :: x != r.event ==> Context(t'.slots[r.fd], x) == Context(t.slots[r.fd], x)
    requires Holds(t'.slots[r.fd], r) && t'.log == t.log && t'.pending == t.pending + 1
    ensures HistOk(t', h.(issued := h.issued + [r], fate := h.fate + [Registered],
                          owner := h.owner[(r.fd, r.event) := |h.issued|]))
  {
    var h' := h.(issued := h.issued + [r], fate := h.fate + [Registered],
                 owner := h.owner[(r.fd, r.event) := |h.issued|]);
    assert h'.fate[..|h.fate|] == h.fate;
    assert OwnersOk(t', h');
  }

  /** New and forgotten slots hold nothing, so the history does not see them. */
  lemma ResizedHist(t: Table, h: History, size: nat)
    requires HistOk(t, h) && forall i :: size <= i < |t.slots| ==> t.slots[i].events == {}
    ensures HistOk(t.(slots := Resize(t.slots, size)), h)
  {
    var slots := Resize(t.slots, size);
    assert forall i :: 0 <= i < |slots| ==>
             slots[i] == if i < |t.slots| then t.slots[i] else FdContext(i, {}, EMPTY, EMPTY);
    assert OwnersOk(t.(slots := slots), h);
  }

  lemma GrownHist(t: Table, h: History, fd: nat)
    requires HistOk(t, h) && TableOk(t)
    ensures HistOk(t.(slots := Grown(t.slots, fd)), h)
  {
    GrownOk(t, fd);
    if fd >= |t.slots| { ResizedHist(t, h, GrowTo(fd)); }
  }

  lemma AddResult(t: Table, r: Registration, ok: bool)
    requires TableOk(t) && AddEvent(t, r.fd, r.event, r.scheduler, r.handle, ok).1 == Done
    ensures var t1 := t.(slots := Grown(t.slots, r.fd));
            var t' := AddEvent(t, r.fd, r.event, r.scheduler, r.handle, ok).0;
            && r.fd < |t1.slots| == |t'.slots| && r.event !in t1.slots[r.fd].events
            && t'.slots == t1.slots[r.fd := t'.slots[r.fd]]
            && t'.slots[r.fd].events == t1.slots[r.fd].events + {r.event}
            && (forall x :: x != r.event ==> Context(t'.slots[r.fd], x) == Context(t1.slots[r.fd], x))
            && Holds(t'.slots[r.fd], r) && t'.log == t1.log && t'.pending == t1.pending + 1
  {
    GrownOk(t, r.fd);
    match r.handle case FiberHandle(_) => case CallbackHandle(_) =>
  }

  lemma AddKeeps(s: System, a: Action)
    requires Inv(s) && a.Add? && Enabled(s, a)
    ensures Inv(Apply(s, a))
  {
    var r := Registration(a.fd, a.event, a.scheduler, a.handle);
    var (t', out) := AddEvent(s.table, a.fd, a.event, a.scheduler, a.handle, a.ok);
    assert TableOk(t') && (out == Refused ==> t' == s.table.(slots := Grown(s.table.slots, a.fd))) by {
      AddOk(s.table, a.fd, a.event, a.scheduler, a.handle, a.ok);
    }
    GrownHist(s.table, s.hist, a.fd);
    if out == Done {
      AddResult(s.table, r, a.ok);
      AddHist(s.table.(slots := Grown(s.table.slots, a.fd)), s.hist, r, t');
    }
  }

  lemma DelHist(t: Table, h: History, fd: nat, e: Event, t': Table)
    requires HistOk(t, h) && fd < |t.slots| && e in t.slots[fd].events
    requires |t'.slots| == |t.slots| && t'.slots == t.slots[fd := t'.slots[fd]]
    requires t'.slots[fd].events == t.slots[fd].events - {e}
    requires forall x :: x != e ==> Context(t'.slots[fd], x) == Context(t.slots[fd], x)
    requires t'.log == t.log && t'.pending == t.pending - 1
    ensures (fd, e) in h.owner && h.owner[(fd, e)] < |h.fate|
    ensures HistOk(t', h.(fate := h.fate[h.owner[(fd, e)] := Removed], owner := h.owner - {(fd, e)}))
  {
    var k := h.owner[(fd, e)];
    var h' := h.(fate := h.fate[k := Removed], owner := h.owner - {(fd, e)});
    RemovedUpdate(h.fate, k, Removed);
    DelOwners(t, h, fd, e, t');
  }

  lemma DelOwners(t: Table, h: History, fd: nat, e: Event, t': Table)
    requires |h.fate| == |h.issued| && OwnersOk(t, h) && fd < |t.slots| && e in t.slots[fd].events
    requires |t'.slots| == |t.slots| && t'.slots == t.slots[fd := t'.slots[fd]]
    requires t'.slots[fd].events == t.slots[fd].events - {e}
    requires forall x :: x != e ==> Context(t'.slots[fd], x) == Context(t.slots[fd], x)
    ensures (fd, e) in h.owner && h.owner[(fd, e)] < |h.fate|
    ensures OwnersOk(t', h.(fate := h.fate[h.owner[(fd, e)] := Removed], owner := h.owner - {(fd, e)}))
  {
    var k := h.owner[(fd, e)];
    var h' := h.(fate := h.fate[k := Removed], owner := h.owner - {(fd, e)});
    assert forall d: nat, x :: (d, x) in h'.owner ==> (d, x) in h.owner && h'.owner[(d, x)] != k;
  }

  lemma DelKeeps(s: System, a: Action)
    requires Inv(s) && a.Del? && Enabled(s, a)
    ensures Inv(Apply(s, a))
  {
    DelOk(s.table, a.fd, a.event, a.ok);
    var (t', out) := DelEvent(s.table, a.fd, a.event, a.ok);
    if out == Done {
      DelHist(s.table, s.hist, a.fd, a.event, t');
    }
  }

  lemma CancelResult(t: Table, fd: nat, e: Event, ok: bool)
    requires TableOk(t) && CancelEvent(t, fd, e, ok).1 == Done
    ensures var t' := CancelEvent(t, fd, e, ok).0;
            var t0 := t.(kernel := t'.kernel);
            && fd < |t.slots| == |t'.slots| && e in t.slots[fd].events && CanTrigger(t0.slots[fd], e)
            && t' == Trigger(t0, fd, e)
            && t'.slots[fd].events == t.slots[fd].events - {e}
  {
    TriggerOk(t, fd, e);
  }

  lemma CancelKeeps(s: System, a: Action)
    requires Inv(s) && a.Cancel? && Enabled(s, a)
    ensures Inv(Apply(s, a))
  {
    var (t', out) := CancelEvent(s.table, a.fd, a.event, a.ok);
    assert TableOk(t') && (out == Refused ==> t' == s.table) by { CancelOk(s.table, a.fd, a.event, a.ok); }
    if out == Done {
      var t0 := s.table.(kernel := t'.kernel);
      CancelResult(s.table, a.fd, a.event, a.ok);
      KernelFrame(s.table, t0, s.hist);
      TriggerKeeps(t0, s.hist, a.fd, a.event);
      RecordOne(s.hist, a.fd, a.event, s.table, t');
    }
  }

  lemma KernelFrame(t: Table, t0: Table, h: History)
    requires HistOk(t, h) && t0 == t.(kernel := t0.kernel)
    ensures HistOk(t0, h)
  {
    assert OwnersOk(t0, h);
  }

  lemma RecordOne(h: History, fd: nat, e: Event, t: Table, t': Table)
    requires fd < |t.slots| && fd < |t'.slots| && e in t.slots[fd].events
    requires t'.slots[fd].events == t.slots[fd].events - {e}
    ensures GiveCleared(h, fd, t, t') == Give(h, fd, e)
  {
    match e case READ => case WRITE =>
  }

  lemma RecordTwo(h: History, fd: nat, bits: set<Event>, t: Table, t': Table)
    requires fd < |t.slots| == |t'.slots| && bits <= t.slots[fd].events
    requires t'.slots[fd].events == t.slots[fd].events - bits
    ensures GiveCleared(h, fd, t, t') ==
            var h1 := if READ in bits then Give(h, fd, READ) else h;
            if WRITE in bits then Give(h1, fd, WRITE) else h1
  {
    assert t.slots[fd].events - t'.slots[fd].events == bits;
  }

  lemma HandOverKeeps(t: Table, h: History, fd: nat, bits: set<Event>, kernel: map<nat, set<Event>>, t': Table)
    requires HistOk(t, h) && fd < |t.slots| && SlotOk(t.slots[fd]) && bits <= t.slots[fd].events
    requires var t1 := TriggerIf(READ in bits, t.(kernel := kernel), fd, READ);
             t1.Some? && TriggerIf(WRITE in bits, t1.value, fd, WRITE) == Some(t')
    ensures fd < |t'.slots| && HistOk(t', GiveCleared(h, fd, t, t'))
  {
    var t0 := t.(kernel := kernel);
    KernelFrame(t, t0, h);
    TriggerTwoKeeps(t0, h, fd, bits);
    assert |t'.slots| == |t.slots| && t'.slots[fd].events == t.slots[fd].events - bits by { TriggerTwo(t0, fd, bits); }
    RecordTwo(h, fd, bits, t, t');
  }

  lemma CancelBothResult(t: Table, fd: nat, ok: bool)
    requires TableOk(t) && CancelAll(t, fd, ok).1 == Done
    ensures fd < |t.slots|
    ensures var bits := t.slots[fd].events;
            var t1 := TriggerIf(READ in bits, t.(kernel := t.kernel - {fd}), fd, READ);
            t1.Some? && TriggerIf(WRITE in bits, t1.value, fd, WRITE) == Some(CancelAll(t, fd, ok).0)
  {
    TriggerTwo(t.(kernel := t.kernel - {fd}), fd, t.slots[fd].events);
  }

  lemma CancelBothKeeps(s: System, a: Action)
    requires Inv(s) && a.CancelBoth? && Enabled(s, a)
    ensures Inv(Apply(s, a))
  {
    var (t', out) := CancelAll(s.table, a.fd, a.ok);
    assert TableOk(t') && (out == Refused ==> t' == s.table) by { CancelAllOk(s.table, a.fd, a.ok); }
    if out == Done {
      CancelBothResult(s.table, a.fd, a.ok);
      HandOverKeeps(s.table, s.hist, a.fd, s.table.slots[a.fd].events, s.table.kernel - {a.fd}, t');
    }
  }

  lemma ReportResult(t: Table, fd: nat, reported: set<Event>, errHup: bool, ok: bool)
    returns (bits: set<Event>, kernel: map<nat, set<Event>>)
    requires TableOk(t) && Deliver(t, fd, reported, errHup, ok).1 == Done
    ensures fd < |t.slots| && bits <= t.slots[fd].events
    ensures var t1 := TriggerIf(READ in bits, t.(kernel := kernel), fd, READ);
            t1.Some? && TriggerIf(WRITE in bits, t1.value, fd, WRITE) == Some(Deliver(t, fd, reported, errHup, ok).0)
  {
    bits := RealEvents(t.slots[fd], reported, errHup);
    var left := t.slots[fd].events - bits;
    kernel := EpollCtl(t.kernel, if left != {} then MOD else DEL, fd, left, ok).value;
    DeliverAccepted(t, fd, reported, errHup);
  }

  lemma DeliverHist(t: Table, h: History, fd: nat, reported: set<Event>, errHup: bool, ok: bool, t': Table)
    requires TableOk(t) && HistOk(t, h) && Deliver(t, fd, reported, errHup, ok) == (t', Done)
    ensures fd < |t.slots| && fd < |t'.slots| && HistOk(t', GiveCleared(h, fd, t, t'))
  {
    var bits, kernel := ReportResult(t, fd, reported, errHup, ok);
    HandOverKeeps(t, h, fd, bits, kernel, t');
  }

  lemma ReportKeeps(s: System, a: Action)
    requires Inv(s) && a.Report? && Enabled(s, a)
    ensures Inv(Apply(s, a))
  {
    var r := Deliver(s.table, a.fd, a.reported, a.errHup, a.ok);
    DeliverOk(s.table, a.fd, a.reported, a.errHup, a.ok);
    if r.1 == Done {
      DeliverHist(s.table, s.hist, a.fd, a.reported, a.errHup, a.ok, r.0);
      Recorded(s, a, r.0);
    } else {
      assert Apply(s, a) == s;
    }
  }

  lemma Recorded(s: System, a: Action, t': Table)
    requires a.Report? && Result(s.table, a) == (t', Done) && TableOk(t') && a.fd < |s.table.slots| && a.fd < |t'.slots|
    requires HistOk(t', GiveCleared(s.hist, a.fd, s.table, t'))
    ensures Inv(Apply(s, a))
  {}

  lemma InvStep(s: System, a: Action)
    requires Inv(s) && Enabled(s, a)
    ensures Inv(Apply(s, a))
  {
    match a
    case Add(_, _, _, _, _) => AddKeeps(s, a);
    case Del(_, _, _) => DelKeeps(s, a);
    case Cancel(_, _, _) => CancelKeeps(s, a);
    case CancelBoth(_, _) => CancelBothKeeps(s, a);
    case Report(_, _, _, _) => ReportKeeps(s, a);
  }

  lemma InitInv()
    ensures Inv(InitSystem())
  {
    InitOk();
  }

  lemma {:induction false} RunInv(states: seq<System>, acts: seq<Action>, i: nat)
    requires IsRun(states, acts) && i < |states|
    ensures Inv(states[i])
  {
    if i == 0 {
      InitInv();
    } else {
      RunInv(states, acts, i - 1);
      InvStep(states[i - 1], acts[i - 1]);
    }
  }

  // ---------------------------------------------------------------- what holds over every run

  /** Slot i describes descriptor i, kernel set = bits, a set bit holds one handle, count = bits. */
  lemma TableAlwaysOk(states: seq<System>, acts: seq<Action>, i: nat)
    requires IsRun(states, acts) && i < |states|
    ensures TableOk(states[i].table) && states[i].table.pending >= 0
  {
    RunInv(states, acts, i);
  }

  /** Registration `j` is still in its slot, removed and never scheduled, or scheduled once with its own handle. */
  ghost predicate OneFate(t: Table, h: History, j: nat) {
    && j < |h.fate| == |h.issued| && |h.tokens| == |t.log|
    && (h.fate[j] == Registered ==>
          h.issued[j].fd < |t.slots| && Holds(t.slots[h.issued[j].fd], h.issued[j]) && j !in h.tokens)
    && (h.fate[j] == Removed ==> j !in h.tokens)
    && (h.fate[j].Given? ==>
          && h.fate[j].k < |t.log| && h.tokens[h.fate[j].k] == j
          && t.log[h.fate[j].k] == Handed(h.issued[j].scheduler, h.issued[j].handle)
          && forall k :: 0 <= k < |h.tokens| && h.tokens[k] == j ==> k == h.fate[j].k)
  }

  /** Each successful addEvent has exactly one of the three fates. */
  lemma ExactlyOneFate(states: seq<System>, acts: seq<Action>, i: nat, j: nat)
    requires IsRun(states, acts) && i < |states| && j < |states[i].hist.issued|
    ensures OneFate(states[i].table, states[i].hist, j)
  {
    RunInv(states, acts, i);
  }

  /** issued = registered + scheduled + removed, in every reachable state. */
  lemma Conservation(states: seq<System>, acts: seq<Action>, i: nat)
    requires IsRun(states, acts) && i < |states|
    ensures |states[i].hist.issued| ==
            TotalBits(states[i].table.slots) + |states[i].table.log| + RemovedCount(states[i].hist.fate)
  {
    RunInv(states, acts, i);
  }

  ghost predicate OwnersRegistered(h: History) {
    && |h.fate| == |h.issued|
    && (forall p :: p in h.owner ==> h.owner[p] < |h.fate| && h.fate[h.owner[p]] == Registered)
    && (forall p, q :: p in h.owner && q in h.owner && h.owner[p] == h.owner[q] ==> p == q)
  }

  /** Registration `j` is settled in `h` and unchanged in `h'`. */
  ghost predicate SettledAndKept(h: History, h': History, j: nat) {
    && |h.fate| == |h.issued| && |h'.fate| == |h'.issued| && j < |h.fate| <= |h'.fate|
    && h.fate[j] != Registered && h'.fate[j] == h.fate[j] && h'.issued[j] == h.issued[j]
  }

  lemma InvOwners(s: System)
    requires Inv(s)
    ensures OwnersRegistered(s.hist)
  {
    var h := s.hist;
    forall p | p in h.owner
      ensures h.owner[p] < |h.fate| && h.fate[h.owner[p]] == Registered
      ensures p == (h.issued[h.owner[p]].fd, h.issued[h.owner[p]].event)
    {
      assert (p.0, p.1) in h.owner;
    }
  }

  lemma GiveStable(h: History, fd: nat, e: Event, j: nat)
    requires OwnersRegistered(h) && j < |h.fate| && h.fate[j] != Registered
    ensures OwnersRegistered(Give(h, fd, e)) && SettledAndKept(h, Give(h, fd, e), j)
  {}

  lemma GiveClearedStable(h: History, fd: nat, t: Table, t': Table, j: nat)
    requires fd < |t.slots| && fd < |t'.slots|
    requires OwnersRegistered(h) && j < |h.fate| && h.fate[j] != Registered
    ensures SettledAndKept(h, GiveCleared(h, fd, t, t'), j)
  {
    GiveStable(h, fd, READ, j);
    var h1 := if READ in t.slots[fd].events - t'.slots[fd].events then Give(h, fd, READ) else h;
    GiveStable(h1, fd, WRITE, j);
  }

  lemma RecordStable(h: History, a: Action, t: Table, t': Table, j: nat)
    requires OwnersRegistered(h) && j < |h.fate| && h.fate[j] != Registered
    ensures SettledAndKept(h, Record(h, a, t, t'), j)
  {
    if !a.Add? && !a.Del? && a.fd < |t.slots| && a.fd < |t'.slots| {
      GiveClearedStable(h, a.fd, t, t', j);
    }
  }

  lemma FateStep(s: System, a: Action, j: nat)
    requires Inv(s) && j < |s.hist.fate| && s.hist.fate[j] != Registered
    ensures SettledAndKept(s.hist, Apply(s, a).hist, j)
  {
    InvOwners(s);
    RecordStable(s.hist, a, s.table, Result(s.table, a).0, j);
  }

  lemma FateStepInRun(states: seq<System>, acts: seq<Action>, i: nat, j: nat)
    requires IsRun(states, acts) && i < |acts|
    requires j < |states[i].hist.fate| && states[i].hist.fate[j] != Registered
    ensures SettledAndKept(states[i].hist, states[i + 1].hist, j)
  {
    RunInv(states, acts, i);
    FateStep(states[i], acts[i], j);
  }

  /** A registration that was removed or scheduled stays so: no later step schedules it again. */
  lemma {:induction false} FateIsFinal(states: seq<System>, acts: seq<Action>, i: nat, i': nat, j: nat)
    requires IsRun(states, acts) && i <= i' < |states|
    requires |states[i].hist.fate| == |states[i].hist.issued| && j < |states[i].hist.fate|
             && states[i].hist.fate[j] != Registered
    ensures SettledAndKept(states[i].hist, states[i'].hist, j)
    decreases i'
  {
    if i < i' {
      FateIsFinal(states, acts, i, i' - 1, j);
      FateStepInRun(states, acts, i' - 1, j);
    }
  }
}
