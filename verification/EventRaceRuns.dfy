/** Runs of the separate steps: exactly when a late growth is safe, and what an unsafe one does. */
module EventRaceRuns {
  import opened EventTable
  import opened EventRace
  import R = EventRuns

  // ---------------------------------------------------------------- exactly when a late growth is safe

  predicate GrowFree(acts: seq<Action>) {
    forall i :: 0 <= i < |acts| ==> !acts[i].Grow?
  }

  /** Whatever the operations in flight and later ones do, short of growing again, the table stays right. */
  ghost predicate Safe(s: State) {
    forall states, acts :: RunFrom(s, states, acts) && GrowFree(acts) ==>
      forall i :: 0 <= i < |states| ==> VecInside(states[i]) && TableOk(View(states[i]))
  }

  lemma {:induction false} GrowFreeRun(s: State, states: seq<State>, acts: seq<Action>, i: nat)
    requires RaceOk(s) && RunFrom(s, states, acts) && GrowFree(acts) && i < |states|
    ensures RaceOk(states[i])
  {
    if i > 0 {
      GrowFreeRun(s, states, acts, i - 1);
      RaceStep(states[i - 1], acts[i - 1]);
    }
  }

  /** An addEvent whose context was cut off registers where no lookup finds it. */
  lemma OrphanRegisters(s: State, k: nat, j: nat)
    requires RaceOk(s) && Enabled(s, Grow(k)) && j < |s.calls| && s.calls[j].op.Add? && s.calls[j].pc.Holding?
    requires s.calls[j].op.fd >= GrowTo(s.calls[k].op.fd)
    requires s.objects[s.vec[s.calls[j].op.fd]].events == {}
    ensures var s1 := Apply(s, Grow(k));
            && Enabled(s1, Commit(j, true)) && VecInside(Apply(s1, Commit(j, true)))
            && !TableOk(View(Apply(s1, Commit(j, true))))
  {
    var s1 := Apply(s, Grow(k));
    var op, c := s.calls[j].op, s.calls[j].pc.ctx;
    assert CallOk(s, s.calls[j]);
    assert View(s).slots[op.fd] == s.objects[c] && op.fd !in s.kernel;
    assert s1.calls[j] == s.calls[j] && s1.objects == s.objects;
    FreshContextRegisters(ViewAt(s1, op.fd, c), WithOk(op, true));
    var s2 := Apply(s1, Commit(j, true));
    assert op.fd in View(s2).kernel && op.fd >= |View(s2).slots|;
  }

  lemma FreshContextRegisters(t: Table, a: R.Action)
    requires a.Add? && a.ok && a.fd < |t.slots| && t.slots[a.fd].events == {} && SlotOk(t.slots[a.fd])
             && a.fd !in t.kernel
    ensures R.Result(t, a).1 == Done && a.fd in R.Result(t, a).0.kernel && |R.Result(t, a).0.slots| == |t.slots|
  {
    assert Context(t.slots[a.fd], a.event) == EMPTY by { match a.event case READ => case WRITE => }
  }

  /**
   * A growth decided on before the vector grew is safe if and only if nothing at or beyond the
   * requested size is registered and no addEvent has looked up a context there.
   */
  lemma LateGrowthIff(s: State, k: nat)
    requires RaceOk(s) && Enabled(s, Grow(k))
    ensures Safe(Apply(s, Grow(k))) <==> NothingBeyond(s, GrowTo(s.calls[k].op.fd))
  {
    var size := GrowTo(s.calls[k].op.fd);
    if NothingBeyond(s, size) {
      GrowthIsSafe(s, k);
    } else if exists i :: size <= i < |s.vec| && s.objects[s.vec[i]].events != {} {
      CutsRegistered(s, k);
    } else {
      CutsInFlight(s, k);
    }
  }

  lemma GrowthIsSafe(s: State, k: nat)
    requires RaceOk(s) && Enabled(s, Grow(k)) && NothingBeyond(s, GrowTo(s.calls[k].op.fd))
    ensures Safe(Apply(s, Grow(k)))
  {
    var s1 := Apply(s, Grow(k));
    GrowKeeps(s, k);
    forall states, acts, i | RunFrom(s1, states, acts) && GrowFree(acts) && 0 <= i < |states|
      ensures VecInside(states[i]) && TableOk(View(states[i]))
    {
      GrowFreeRun(s1, states, acts, i);
    }
  }

  lemma CutsRegistered(s: State, k: nat)
    requires RaceOk(s) && Enabled(s, Grow(k))
    requires exists i :: GrowTo(s.calls[k].op.fd) <= i < |s.vec| && s.objects[s.vec[i]].events != {}
    ensures !Safe(Apply(s, Grow(k)))
  {
    var s1 := Apply(s, Grow(k));
    var i :| GrowTo(s.calls[k].op.fd) <= i < |s.vec| && s.objects[s.vec[i]].events != {};
    GrownView(s, k);
    LateResize(View(s), s.calls[k].op.fd);
    assert View(s).slots[i].events != {};
    var none: seq<Action> := [];
    assert RunFrom(s1, [s1], none) && GrowFree(none);
    assert !TableOk(View([s1][0]));
  }

  lemma CutsInFlight(s: State, k: nat)
    requires RaceOk(s) && Enabled(s, Grow(k)) && !NothingBeyond(s, GrowTo(s.calls[k].op.fd))
    requires forall i :: GrowTo(s.calls[k].op.fd) <= i < |s.vec| ==> s.objects[s.vec[i]].events == {}
    ensures !Safe(Apply(s, Grow(k)))
  {
    var s1 := Apply(s, Grow(k));
    var j :| 0 <= j < |s.calls| && s.calls[j].op.Add? && s.calls[j].pc.Holding?
        && s.calls[j].op.fd >= GrowTo(s.calls[k].op.fd);
    assert CallOk(s, s.calls[j]);
    OrphanRegisters(s, k, j);
    OneStepUnsafe(s1, Commit(j, true));
  }

  lemma OneStepUnsafe(s: State, a: Action)
    requires Enabled(s, a) && !a.Grow? && VecInside(Apply(s, a)) && !TableOk(View(Apply(s, a)))
    ensures !Safe(s)
  {
    var states, acts := [s, Apply(s, a)], [a];
    assert RunFrom(s, states, acts) && GrowFree(acts);
    assert !TableOk(View(states[1]));
  }

  /** Over every run whose growths all meet that condition the table is right throughout. */
  lemma {:induction false} TableRightWhile(states: seq<State>, acts: seq<Action>, i: nat)
    requires RunFrom(Init(), states, acts) && i < |states|
    requires forall j :: 0 <= j < |acts| && acts[j].Grow? && VecInside(states[j]) ==>
               NothingBeyond(states[j], GrowTo(states[j].calls[acts[j].k].op.fd))
    ensures RaceOk(states[i])
  {
    if i == 0 {
      InitRace();
    } else {
      TableRightWhile(states, acts, i - 1);
      if acts[i - 1].Grow? { GrowKeeps(states[i - 1], acts[i - 1].k); } else { RaceStep(states[i - 1], acts[i - 1]); }
    }
  }

  // ---------------------------------------------------------------- it does happen

  /** addEvent on 100 and on 40 both find 32 contexts too few; 100 grows first, and 40 then cuts its context off. */
  lemma BothMustGrow(a: R.Action, b: R.Action) returns (s: State, states: seq<State>, acts: seq<Action>)
    requires a.Add? && b.Add? && a.fd == 100 && b.fd == 40
    ensures RunFrom(Init(), states, acts) && states[|acts|] == s && RaceOk(s)
    ensures s == Init().(calls := [Call(a, MustGrow), Call(b, MustGrow)])
  {
    var s0 := Init();
    var s1 := Apply(s0, Begin(a));
    var s2 := Apply(s1, Begin(b));
    var s3 := Apply(s2, Lookup(0));
    s := Apply(s3, Lookup(1));
    states, acts := [s0, s1, s2, s3, s], [Begin(a), Begin(b), Lookup(0), Lookup(1)];
    InitRace();
    assert Slots(s) == Slots(s0);
    assert s.calls == [Call(a, MustGrow), Call(b, MustGrow)];
  }

  /**
   * No bit is set when the second growth cuts the vector, and the table is right after it; the
   * registration that follows lands on a context no lookup finds.
   */
  lemma LateGrowthOrphansRegistration(a: R.Action, b: R.Action) returns (states: seq<State>, acts: seq<Action>)
    requires a.Add? && b.Add? && a.fd == 100 && b.fd == 40
    ensures RunFrom(Init(), states, acts) && |acts| >= 2 && acts[|acts| - 2] == Grow(1)
            && acts[|acts| - 1] == Commit(0, true)
    ensures states[|acts| - 2].kernel == map[] && VecInside(states[|acts| - 1]) && TableOk(View(states[|acts| - 1]))
    ensures VecInside(states[|acts|]) && !TableOk(View(states[|acts|]))
  {
    var s;
    s, states, acts := BothMustGrow(a, b);
    FirstGrows(s, a, b);
    var s5 := Apply(s, Grow(0));
    CutKeepsTable(s5);
    OrphanRegisters(s5, 1, 0);
    states, acts := RunThree(states, acts, Grow(0), Grow(1), Commit(0, true));
  }

  lemma FirstGrows(s: State, a: R.Action, b: R.Action)
    requires RaceOk(s) && a.Add? && b.Add? && |s.vec| <= a.fd && s.kernel == map[]
    requires s.calls == [Call(a, MustGrow), Call(b, MustGrow)]
    ensures Enabled(s, Grow(0))
    ensures var s' := Apply(s, Grow(0));
            && RaceOk(s') && s'.kernel == map[] && |s'.calls| == 2 && Enabled(s', Grow(1))
            && s'.calls[0].op == a && s'.calls[0].pc.Holding? && s'.calls[1] == s.calls[1]
  {
    assert CallOk(s, s.calls[0]) && CallOk(s, s.calls[1]);
    GrowShape(s, 0);
    GrowKeeps(s, 0);
  }

  lemma GrowShape(s: State, k: nat)
    requires k < |s.calls| && s.calls[k].pc == MustGrow && s.calls[k].op.fd >= 32
    ensures Enabled(s, Grow(k))
    ensures var s', fd := Apply(s, Grow(k)), s.calls[k].op.fd;
            && s'.kernel == s.kernel && |s'.vec| == GrowTo(fd) > fd
            && s'.calls == s.calls[k := Call(s.calls[k].op, Holding(s'.vec[fd]))]
  {}

  lemma RunThree(states: seq<State>, acts: seq<Action>, a: Action, b: Action, c: Action)
    returns (states': seq<State>, acts': seq<Action>)
    requires RunFrom(Init(), states, acts) && Enabled(states[|acts|], a)
    requires Enabled(Apply(states[|acts|], a), b) && Enabled(Apply(Apply(states[|acts|], a), b), c)
    ensures RunFrom(Init(), states', acts') && acts' == acts + [a, b, c]
    ensures states'[|acts|] == states[|acts|] && states'[|acts| + 1] == Apply(states[|acts|], a)
    ensures states'[|acts| + 2] == Apply(Apply(states[|acts|], a), b)
    ensures states'[|acts| + 3] == Apply(Apply(Apply(states[|acts|], a), b), c)
  {
    var s1 := Apply(states[|acts|], a);
    var s2 := Apply(s1, b);
    RunOn(states, acts, a);
    RunOn(states + [s1], acts + [a], b);
    RunOn(states + [s1] + [s2], acts + [a] + [b], c);
    states', acts' := states + [s1] + [s2] + [Apply(s2, c)], acts + [a] + [b] + [c];
  }

  lemma CutKeepsTable(s: State)
    requires RaceOk(s) && Enabled(s, Grow(1)) && s.kernel == map[] && s.calls[1].op.fd == 40
    ensures forall i :: 0 <= i < |s.vec| ==> s.objects[s.vec[i]].events == {}
    ensures VecInside(Apply(s, Grow(1))) && TableOk(View(Apply(s, Grow(1))))
  {
    forall i | 0 <= i < |s.vec| ensures s.objects[s.vec[i]].events == {} {
      assert View(s).slots[i].events == {};
    }
    GrowObjects(s, 1);
  }

  lemma RunOn(states: seq<State>, acts: seq<Action>, a: Action)
    requires RunFrom(Init(), states, acts) && Enabled(states[|acts|], a)
    ensures RunFrom(Init(), states + [Apply(states[|acts|], a)], acts + [a])
  {}

  // ---------------------------------------------------------------- what is lost

  /**
   * A registered context that was cut off: delEvent, cancelEvent and cancelAll answer no, a new
   * addEvent gets a new context and the kernel refuses it, and yet a report still resumes the wait.
   */
  lemma CutOffWait(s: State, fd: nat, c: nat)
    requires VecInside(s) && fd >= |s.vec| && fd in s.kernel && fd in s.ptr && s.ptr[fd] == c && c < |s.objects|
    requires s.objects[c].events != {} && SlotOk(s.objects[c]) && fd < GrowTo(fd)
    ensures forall op: R.Action :: op.fd == fd && !op.Add? && !op.Report? ==> Found(s, op) == Ended(Refused)
    ensures forall op: R.Action :: op.fd == fd && op.Add? ==> Found(s, op) == MustGrow
    ensures var s1 := Resized(s, GrowTo(fd));
            && fd < |s1.vec| && s1.vec[fd] < |s1.objects|
            && forall op: R.Action, ok :: op.fd == fd && op.Add? ==> Section(s1, op, s1.vec[fd], ok).1 == Refused
    ensures var op := R.Report(fd, s.objects[c].events, false, true);
            && Found(s, op) == Holding(c) && Section(s, op, c, true).1 == Done
            && |Section(s, op, c, true).0.log| > |s.log|
  {
    NewContextRefused(s, fd);
    ReportStillDelivers(s, fd, c);
  }

  lemma NewContextRefused(s: State, fd: nat)
    requires VecInside(s) && fd >= |s.vec| && fd in s.kernel && fd < GrowTo(fd)
    ensures var s1 := Resized(s, GrowTo(fd));
            && fd < |s1.vec| && s1.vec[fd] < |s1.objects|
            && forall op: R.Action, ok :: op.fd == fd && op.Add? ==> Section(s1, op, s1.vec[fd], ok).1 == Refused
  {
    var s1 := Resized(s, GrowTo(fd));
    ResizedPlaces(s, GrowTo(fd));
    var t := ViewAt(s1, fd, s1.vec[fd]);
    forall op: R.Action, ok | op.fd == fd && op.Add? ensures Section(s1, op, s1.vec[fd], ok).1 == Refused {
      KnownToKernel(t, WithOk(op, ok));
    }
  }

  lemma KnownToKernel(t: Table, a: R.Action)
    requires a.Add? && a.fd < |t.slots| && t.slots[a.fd].events == {} && a.fd in t.kernel
    ensures R.Result(t, a).1 == Refused
  {}

  lemma ReportStillDelivers(s: State, fd: nat, c: nat)
    requires fd in s.kernel && c < |s.objects| && s.objects[c].events != {} && SlotOk(s.objects[c])
    ensures var op := R.Report(fd, s.objects[c].events, false, true);
            Section(s, op, c, true).1 == Done && |Section(s, op, c, true).0.log| > |s.log|
  {
    DeliverWhole(ViewAt(s, fd, c), fd);
  }

  lemma DeliverWhole(t: Table, fd: nat)
    requires fd < |t.slots| && fd in t.kernel && t.slots[fd].events != {} && SlotOk(t.slots[fd])
    ensures var r := Deliver(t, fd, t.slots[fd].events, false, true);
            r.1 == Done && |r.0.log| > |t.log|
  {
    var bits := t.slots[fd].events;
    assert bits - bits == {} && RealEvents(t.slots[fd], bits, false) == bits && bits * bits == bits;
    TriggerTwo(t.(kernel := t.kernel - {fd}), fd, bits);
    assert READ in bits || WRITE in bits by { var e :| e in bits; match e case READ => case WRITE => }
  }
}
