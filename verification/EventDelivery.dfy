/** The reports of one `epoll_wait`, delivered one after the other: what each of them wakes. */
module EventDelivery {
  import opened Common
  import opened EventTable
  import H = HookWait
  import R = EventRuns

  /** One entry filled in by `epoll_wait`, with the answer `epoll_ctl` will give to its re-arming. */
  datatype Report = Report(fd: nat, reported: set<Event>, errHup: bool, ok: bool)

  function AsAction(r: Report): R.Action { R.Report(r.fd, r.reported, r.errHup, r.ok) }

  /** The waits a report is for: those on the reported events, and after an error or hang-up all of them. */
  function Wakes(t: Table, r: Report): set<Event> {
    if !r.ok || r.fd >= |t.slots| then {}
    else if r.errHup then t.slots[r.fd].events
    else t.slots[r.fd].events * r.reported
  }

  /** What they hold, READ first. */
  function Handles(t: Table, r: Report): seq<Handed> {
    if r.fd < |t.slots| then H.HandedBy(t.slots[r.fd], Wakes(t, r)) else []
  }

  /** `t'` is `t` without those waits, which are in the log now; all other waits are as they were. */
  ghost predicate Woke(t: Table, t': Table, r: Report) {
    && TableOk(t') && |t'.slots| == |t.slots| && t'.log == t.log + Handles(t, r)
    && (forall fd :: 0 <= fd < |t.slots| && fd != r.fd ==> t'.slots[fd] == t.slots[fd])
    && (r.fd < |t.slots| ==>
          && t'.slots[r.fd].events == t.slots[r.fd].events - Wakes(t, r)
          && forall e :: e !in Wakes(t, r) ==> Context(t'.slots[r.fd], e) == Context(t.slots[r.fd], e))
  }

  /** A report that does not abort wakes exactly the waits it is for. */
  lemma ReportWakes(t: Table, r: Report)
    requires TableOk(t) && R.Result(t, AsAction(r)).1 != Aborted
    ensures Woke(t, R.Result(t, AsAction(r)).0, r)
    ensures R.Result(t, AsAction(r)).1 == Done <==> Wakes(t, r) != {}
  {
    DeliverOk(t, r.fd, r.reported, r.errHup, r.ok);
    if Wakes(t, r) == {} { NobodyWakes(t, r); } else { SomeWake(t, r); }
  }

  lemma NobodyWakes(t: Table, r: Report)
    requires TableOk(t) && Wakes(t, r) == {}
    ensures R.Result(t, AsAction(r)) == (t, Refused) && Handles(t, r) == []
  {
    if r.ok && r.fd < |t.slots| {
      var c := t.slots[r.fd];
      assert c.events * RealEvents(c, r.reported, r.errHup) == {};
    }
  }

  lemma SomeWake(t: Table, r: Report)
    requires TableOk(t) && R.Result(t, AsAction(r)).1 != Aborted && Wakes(t, r) != {}
    ensures R.Result(t, AsAction(r)).1 == Done && Woke(t, R.Result(t, AsAction(r)).0, r)
  {
    var c, bits := t.slots[r.fd], Wakes(t, r);
    DeliverOk(t, r.fd, r.reported, r.errHup, r.ok);
    assert RealEvents(c, r.reported, r.errHup) == bits;
    assert c.events * bits == bits;
    BitsHandOver(t, r.fd, r.reported, r.errHup, bits);
  }

  lemma BitsHandOver(t: Table, fd: nat, reported: set<Event>, errHup: bool, bits: set<Event>)
    requires TableOk(t) && fd < |t.slots| && bits != {} && bits <= t.slots[fd].events
    requires RealEvents(t.slots[fd], reported, errHup) == bits
    ensures var (t', out) := Deliver(t, fd, reported, errHup, true);
            out == Done && TableOk(t') && H.HandsOver(t, t', fd, bits)
  {
    var t' := Deliver(t, fd, reported, errHup, true).0;
    assert t.slots[fd].events * bits == bits;
    DeliverAccepted(t, fd, reported, errHup);
    H.TriggersHandOver(t, t', fd, bits, t'.kernel);
  }

  // ---------------------------------------------------------------- a whole batch

  /** Each report takes the table it finds to the next one, and none of them aborts. */
  ghost predicate Delivered(tables: seq<Table>, reports: seq<Report>) {
    |tables| == |reports| + 1 && forall i :: 0 <= i < |reports| ==> DeliveredAt(tables, reports, i)
  }

  ghost predicate DeliveredAt(tables: seq<Table>, reports: seq<Report>, i: int)
    requires 0 <= i < |reports| && |tables| == |reports| + 1
  {
    var (t, out) := R.Result(tables[i], AsAction(reports[i]));
    t == tables[i + 1] && out != Aborted
  }

  lemma DeliveredOn(tables: seq<Table>, reports: seq<Report>, r: Report, t: Table)
    requires Delivered(tables, reports) && R.Result(tables[|reports|], AsAction(r)).0 == t
    requires R.Result(tables[|reports|], AsAction(r)).1 != Aborted
    ensures Delivered(tables + [t], reports + [r])
  {
    var tables', reports' := tables + [t], reports + [r];
    forall i | 0 <= i < |reports'| ensures DeliveredAt(tables', reports', i) {
      if i < |reports| { assert DeliveredAt(tables, reports, i); }
    }
  }

  lemma {:induction false} DeliveredOk(tables: seq<Table>, reports: seq<Report>, i: nat)
    requires Delivered(tables, reports) && TableOk(tables[0]) && i <= |reports|
    ensures TableOk(tables[i])
    ensures i < |reports| ==> Woke(tables[i], tables[i + 1], reports[i])
  {
    if i > 0 { DeliveredOk(tables, reports, i - 1); }
    if i < |reports| { DeliveredNext(tables, reports, i); }
  }

  lemma DeliveredNext(tables: seq<Table>, reports: seq<Report>, i: nat)
    requires Delivered(tables, reports) && i < |reports| && TableOk(tables[i])
    ensures Woke(tables[i], tables[i + 1], reports[i])
  {
    assert DeliveredAt(tables, reports, i);
    ReportWakes(tables[i], reports[i]);
  }

  /** The handles of all reports, in their order. */
  function AllHandles(tables: seq<Table>, reports: seq<Report>, n: nat): seq<Handed>
    requires n <= |reports| <= |tables|
  {
    if n == 0 then [] else AllHandles(tables, reports, n - 1) + Handles(tables[n - 1], reports[n - 1])
  }

  predicate Waits(t: Table, fd: nat, e: Event) { fd < |t.slots| && e in t.slots[fd].events }

  /** What each report did to the bits and to the log. */
  ghost predicate Steps(tables: seq<Table>, reports: seq<Report>) {
    |tables| == |reports| + 1 && forall i :: 0 <= i < |reports| ==> StepAt(tables, reports, i)
  }

  ghost predicate StepAt(tables: seq<Table>, reports: seq<Report>, i: int)
    requires 0 <= i < |reports| && |tables| == |reports| + 1
  {
    var t, t', r := tables[i], tables[i + 1], reports[i];
    && t'.log == t.log + Handles(t, r) && |t'.slots| == |t.slots|
    && forall fd: nat, e :: Waits(t', fd, e) <==> Waits(t, fd, e) && !(fd == r.fd && e in Wakes(t, r))
  }

  lemma BatchSteps(tables: seq<Table>, reports: seq<Report>)
    requires Delivered(tables, reports) && TableOk(tables[0])
    ensures Steps(tables, reports)
  {
    forall i | 0 <= i < |reports| ensures StepAt(tables, reports, i) {
      DeliveredOk(tables, reports, i);
    }
  }

  lemma {:induction false} StepsLog(tables: seq<Table>, reports: seq<Report>, n: nat)
    requires Steps(tables, reports) && n <= |reports|
    ensures tables[n].log == tables[0].log + AllHandles(tables, reports, n)
  {
    if n > 0 {
      var i := n - 1;
      StepsLog(tables, reports, i);
      assert StepAt(tables, reports, i);
      Joined(tables[0].log, AllHandles(tables, reports, i), Handles(tables[i], reports[i]));
    }
  }

  lemma Joined(p: seq<Handed>, q: seq<Handed>, r: seq<Handed>)
    ensures p + q + r == p + (q + r)
  {
  }

  /** The log gains exactly these. */
  lemma LogOfBatch(tables: seq<Table>, reports: seq<Report>)
    requires Delivered(tables, reports) && TableOk(tables[0])
    ensures tables[|reports|].log == tables[0].log + AllHandles(tables, reports, |reports|)
  {
    BatchSteps(tables, reports);
    StepsLog(tables, reports, |reports|);
  }

  /** The handle that a registered wait on `e` holds. */
  function HandleOf(c: FdContext, e: Event): Handed
    requires ContextOk(c, e) && e in c.events
  {
    var x := Context(c, e);
    Handed(x.scheduler.value, if x.fiber.Some? then FiberHandle(x.fiber.value) else CallbackHandle(x.cb.value))
  }

  lemma HandleIsHanded(c: FdContext, bits: set<Event>, e: Event)
    requires SlotOk(c) && e in bits && bits <= c.events
    ensures ContextOk(c, e) && HandleOf(c, e) in H.HandedBy(c, bits)
  {
    match e
    case READ => assert H.HandedBy(c, bits)[0] == HandleOf(c, READ);
    case WRITE => assert H.HandedBy(c, bits)[|H.HandedBy(c, bits)| - 1] == HandleOf(c, WRITE);
  }

  lemma ReportHands(tables: seq<Table>, reports: seq<Report>, i: nat, e: Event)
    requires Delivered(tables, reports) && TableOk(tables[0]) && i < |reports| && e in Wakes(tables[i], reports[i])
    ensures var fd := reports[i].fd;
            && fd < |tables[i].slots| && ContextOk(tables[i].slots[fd], e) && e in tables[i].slots[fd].events
            && HandleOf(tables[i].slots[fd], e) in Handles(tables[i], reports[i])
  {
    DeliveredOk(tables, reports, i);
    HandleIsHanded(tables[i].slots[reports[i].fd], Wakes(tables[i], reports[i]), e);
  }

  lemma {:induction false} StepsClear(tables: seq<Table>, reports: seq<Report>, i: nat, e: Event, h: Handed, j: nat)
    requires Steps(tables, reports) && i < j <= |reports| && e in Wakes(tables[i], reports[i])
    requires h in Handles(tables[i], reports[i])
    ensures |tables[i].slots| == |tables[j].slots| && e !in tables[j].slots[reports[i].fd].events
    ensures h in AllHandles(tables, reports, j)
    decreases j
  {
    var k := j - 1;
    if k > i { StepsClear(tables, reports, i, e, h, k); }
    assert StepAt(tables, reports, k);
    assert !Waits(tables[k + 1], reports[i].fd, e);
  }

  /** A wait that report `i` is for is over from then on, and its handle is among those the log gained. */
  lemma EachReportWakes(tables: seq<Table>, reports: seq<Report>, i: nat, e: Event, j: nat)
    requires Delivered(tables, reports) && TableOk(tables[0]) && i < j <= |reports| && e in Wakes(tables[i], reports[i])
    ensures var fd := reports[i].fd;
            && fd < |tables[i].slots| == |tables[j].slots| && e !in tables[j].slots[fd].events
            && ContextOk(tables[i].slots[fd], e) && e in tables[i].slots[fd].events
            && HandleOf(tables[i].slots[fd], e) in AllHandles(tables, reports, j)
  {
    ReportHands(tables, reports, i, e);
    BatchSteps(tables, reports);
    StepsClear(tables, reports, i, e, HandleOf(tables[i].slots[reports[i].fd], e), j);
  }
}
