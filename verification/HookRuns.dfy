/** Every run of the blocking calls: one resumption per wait, and what a late timeout can still do. */
module HookRuns {
  import opened Common
  import opened EventTable
  import opened HookWait
  import EventRuns

  // ---------------------------------------------------------------- the invariant

  /** Slot (fd, e) is the wait of call `c`. */
  predicate Parks(slots: seq<FdContext>, fd: nat, e: Event, c: nat) {
    fd < |slots| && e in slots[fd].events && Context(slots[fd], e) == EventContext(Some(0), Some(c), None)
  }

  /** Every set bit holds a fiber, and the call it names is waiting there. */
  ghost predicate SlotsNameCalls(slots: seq<FdContext>, calls: seq<Call>) {
    && (forall fd, e :: 0 <= fd < |slots| && e in slots[fd].events ==>
          Context(slots[fd], e).fiber.Some?
          && Context(slots[fd], e) == EventContext(Some(0), Context(slots[fd], e).fiber, None))
    && (forall fd: nat, e, c: nat :: Parks(slots, fd, e, c) ==>
          c < |calls| && calls[c].pc == Waiting && calls[c].fd == fd && calls[c].event == e)
  }

  /** One resumption per wait: a waiting call is parked and owed one, any other is owed none. */
  ghost predicate CallsOk(slots: seq<FdContext>, calls: seq<Call>) {
    forall c :: 0 <= c < |calls| ==>
      && (calls[c].pc == Waiting ==> Parks(slots, calls[c].fd, calls[c].event, c))
      && calls[c].waits == calls[c].resumes + if calls[c].pc == Waiting then 1 else 0
  }

  predicate WroteFlag(p: Phase) { p == Flagged || p == Finished(true) }

  ghost predicate HasWriter(timers: seq<Timeout>, c: nat) {
    exists t :: 0 <= t < |timers| && timers[t].call == c && WroteFlag(timers[t].phase)
  }

  /** A flag is set only by a callback of the same call, and only a set flag makes a call time out. */
  ghost predicate FlagsOk(calls: seq<Call>, timers: seq<Timeout>) {
    && (forall t :: 0 <= t < |timers| ==> timers[t].call < |calls|)
    && (forall c :: 0 <= c < |calls| && calls[c].cancelled ==> HasWriter(timers, c))
    && (forall c :: 0 <= c < |calls| && calls[c].pc == Returned(true) ==> calls[c].cancelled)
  }

  ghost predicate WaitsOk(slots: seq<FdContext>, calls: seq<Call>, timers: seq<Timeout>) {
    SlotsNameCalls(slots, calls) && CallsOk(slots, calls) && FlagsOk(calls, timers)
  }

  ghost predicate Inv(s: State) {
    TableOk(s.table) && WaitsOk(s.table.slots, s.calls, s.timers)
  }

  // ---------------------------------------------------------------- waking

  function Woken(c: Call): Call { c.(pc := Runnable, resumes := c.resumes + 1) }

  /** Call `k` is parked in one of the slots of `bits`. */
  predicate ParkedIn(c: FdContext, bits: set<Event>, k: nat) {
    (READ in bits && c.read.fiber == Some(k)) || (WRITE in bits && c.write.fiber == Some(k))
  }

  lemma HandedOccurs(c: FdContext, bits: set<Event>, k: nat)
    requires READ in bits ==> CanTrigger(c, READ) && c.read.cb.None?
    requires WRITE in bits ==> CanTrigger(c, WRITE) && c.write.cb.None?
    ensures Occurs(HandedBy(c, bits), k) ==
            (if READ in bits && c.read.fiber == Some(k) then 1 else 0)
            + (if WRITE in bits && c.write.fiber == Some(k) then 1 else 0)
  {
    var r := if READ in bits then [TriggerContext(c, READ).1] else [];
    if READ in bits {
      OccursAfter([], TriggerContext(c, READ).1, k);
      assert [] + r == r;
    }
    if WRITE in bits {
      OccursAfter(r, TriggerContext(c, WRITE).1, k);
      assert HandedBy(c, bits) == r + [TriggerContext(c, WRITE).1];
    } else {
      assert HandedBy(c, bits) == r;
    }
  }

  lemma OccursAfter(hs: seq<Handed>, h: Handed, k: nat)
    ensures Occurs(hs + [h], k) == Occurs(hs, k) + if h.handle == FiberHandle(k) then 1 else 0
  {
    assert (hs + [h])[..|hs|] == hs;
  }

  /** A hand-over wakes exactly the calls parked in the cleared slots, each of them once. */
  lemma TableStepWakes(s: State, fd: nat, bits: set<Event>, t': Table)
    requires SlotsNameCalls(s.table.slots, s.calls) && HandsOver(s.table, t', fd, bits)
    ensures forall k :: 0 <= k < |s.calls| ==>
              && TableStep(s, t').calls[k] ==
                   (if ParkedIn(s.table.slots[fd], bits, k) then Woken(s.calls[k]) else s.calls[k])
              && (ParkedIn(s.table.slots[fd], bits, k) ==>
                    s.calls[k].pc == Waiting && s.calls[k].fd == fd && s.calls[k].event in bits)
  {
    var c := s.table.slots[fd];
    assert t'.log[|s.table.log|..] == HandedBy(c, bits);
    forall e, k | e in bits && Context(c, e).fiber == Some(k)
      ensures k < |s.calls| && s.calls[k].pc == Waiting && s.calls[k].fd == fd && s.calls[k].event == e
    {
      assert Parks(s.table.slots, fd, e, k);
    }
    assert READ in bits ==> Context(c, READ).fiber.Some?;
    assert WRITE in bits ==> Context(c, WRITE).fiber.Some?;
    forall k | 0 <= k < |s.calls|
      ensures TableStep(s, t').calls[k] == if ParkedIn(c, bits, k) then Woken(s.calls[k]) else s.calls[k]
      ensures ParkedIn(c, bits, k) ==> s.calls[k].pc == Waiting && s.calls[k].fd == fd && s.calls[k].event in bits
    {
      HandedOccurs(c, bits, k);
    }
  }

  lemma SlotsAfter(s: State, fd: nat, bits: set<Event>, t': Table)
    requires SlotsNameCalls(s.table.slots, s.calls) && HandsOver(s.table, t', fd, bits)
    ensures SlotsNameCalls(t'.slots, TableStep(s, t').calls)
  {
    TableStepWakes(s, fd, bits, t');
    forall d, e | 0 <= d < |t'.slots| && e in t'.slots[d].events
      ensures e in s.table.slots[d].events && Context(t'.slots[d], e) == Context(s.table.slots[d], e)
      ensures d == fd ==> e !in bits
    {}
    forall d: nat, e, k: nat | Parks(t'.slots, d, e, k)
      ensures k < |s.calls| && TableStep(s, t').calls[k] == s.calls[k] && Parks(s.table.slots, d, e, k)
    {
      assert Parks(s.table.slots, d, e, k);
    }
  }

  lemma CallsAfter(s: State, fd: nat, bits: set<Event>, t': Table)
    requires SlotsNameCalls(s.table.slots, s.calls) && CallsOk(s.table.slots, s.calls)
             && HandsOver(s.table, t', fd, bits)
    ensures CallsOk(t'.slots, TableStep(s, t').calls)
  {
    TableStepWakes(s, fd, bits, t');
    var calls' := TableStep(s, t').calls;
    forall k | 0 <= k < |calls'|
      ensures calls'[k].pc == Waiting ==> Parks(t'.slots, calls'[k].fd, calls'[k].event, k)
      ensures calls'[k].waits == calls'[k].resumes + if calls'[k].pc == Waiting then 1 else 0
    {
      var d, e := s.calls[k].fd, s.calls[k].event;
      if calls'[k].pc == Waiting {
        assert Parks(s.table.slots, d, e, k) && !ParkedIn(s.table.slots[fd], bits, k);
        assert !(d == fd && e in bits) by {
          match e case READ => case WRITE =>
        }
      }
    }
  }

  /** Flags depend only on these parts of the calls. */
  lemma FlagsFrame(calls: seq<Call>, calls': seq<Call>, timers: seq<Timeout>)
    requires FlagsOk(calls, timers) && |calls'| == |calls|
    requires forall c :: 0 <= c < |calls| ==> calls'[c].cancelled == calls[c].cancelled
    requires forall c :: 0 <= c < |calls| && calls'[c].pc == Returned(true) ==>
               calls[c].pc == Returned(true) || calls[c].cancelled
    ensures FlagsOk(calls', timers)
  {}

  lemma TableStepKeeps(s: State, fd: nat, bits: set<Event>, t': Table)
    requires WaitsOk(s.table.slots, s.calls, s.timers) && HandsOver(s.table, t', fd, bits)
    ensures WaitsOk(t'.slots, TableStep(s, t').calls, s.timers)
  {
    var calls' := TableStep(s, t').calls;
    assert SlotsNameCalls(t'.slots, calls') by { SlotsAfter(s, fd, bits, t'); }
    assert CallsOk(t'.slots, calls') by { CallsAfter(s, fd, bits, t'); }
    assert FlagsOk(calls', s.timers) by {
      TableStepWakes(s, fd, bits, t');
      FlagsFrame(s.calls, calls', s.timers);
    }
  }

  lemma QuietTableStep(s: State)
    ensures TableStep(s, s.table) == s
  {
    assert s.table.log[|s.table.log|..] == [];
    assert Wake(s.calls, []) == s.calls;
  }

  // ---------------------------------------------------------------- the other steps

  /** Moving a call between points where it is not waiting disturbs no slot. */
  lemma MoveCall(slots: seq<FdContext>, calls: seq<Call>, c: nat, call: Call)
    requires SlotsNameCalls(slots, calls) && CallsOk(slots, calls) && c < |calls|
    requires calls[c].pc != Waiting && call.pc != Waiting && call.waits == call.resumes
    ensures SlotsNameCalls(slots, calls[c := call]) && CallsOk(slots, calls[c := call])
  {}

  lemma WriterKept(timers: seq<Timeout>, timers': seq<Timeout>, c: nat)
    requires HasWriter(timers, c) && |timers'| >= |timers|
    requires forall t :: 0 <= t < |timers| ==>
               timers'[t].call == timers[t].call && (WroteFlag(timers[t].phase) ==> WroteFlag(timers'[t].phase))
    ensures HasWriter(timers', c)
  {
    var t :| 0 <= t < |timers| && timers[t].call == c && WroteFlag(timers[t].phase);
    assert timers'[t].call == c;
  }

  /** Timers that keep their call and their mark keep the flags justified. */
  lemma TimersFrame(calls: seq<Call>, timers: seq<Timeout>, timers': seq<Timeout>)
    requires FlagsOk(calls, timers) && |timers'| >= |timers|
    requires forall t :: 0 <= t < |timers| ==>
               timers'[t].call == timers[t].call && (WroteFlag(timers[t].phase) ==> WroteFlag(timers'[t].phase))
    requires forall t :: |timers| <= t < |timers'| ==> timers'[t].call < |calls|
    ensures FlagsOk(calls, timers')
  {
    forall c | 0 <= c < |calls| && calls[c].cancelled ensures HasWriter(timers', c) {
      WriterKept(timers, timers', c);
    }
  }

  lemma WithdrawKeeps(s: State, c: nat)
    requires Inv(s) && c < |s.calls|
    ensures Inv(WithdrawTimer(s, c))
  {
    TimersFrame(s.calls, s.timers, WithdrawTimer(s, c).timers);
  }

  /** The free slot (fd, e) was filled with the wait of call `c` and nothing else changed. */
  ghost predicate Filled(slots: seq<FdContext>, slots': seq<FdContext>, fd: nat, e: Event, c: nat) {
    && fd < |slots| == |slots'| && e !in slots[fd].events
    && slots' == slots[fd := slots'[fd]] && slots'[fd].events == slots[fd].events + {e}
    && (forall x :: x != e ==> Context(slots'[fd], x) == Context(slots[fd], x))
    && Parks(slots', fd, e, c)
  }

  /** A free slot is filled by the call that registers. */
  lemma ParkAt(slots: seq<FdContext>, slots': seq<FdContext>, calls: seq<Call>, c: nat)
    requires SlotsNameCalls(slots, calls) && CallsOk(slots, calls)
    requires c < |calls| && calls[c].pc == Armed && Filled(slots, slots', calls[c].fd, calls[c].event, c)
    ensures var calls' := calls[c := calls[c].(pc := Waiting, waits := calls[c].waits + 1)];
            SlotsNameCalls(slots', calls') && CallsOk(slots', calls')
  {
    var fd, e := calls[c].fd, calls[c].event;
    forall d, x | 0 <= d < |slots'| && x in slots'[d].events && !(d == fd && x == e)
      ensures x in slots[d].events && Context(slots'[d], x) == Context(slots[d], x)
    {}
    forall d: nat, x, k: nat | Parks(slots, d, x, k) ensures Parks(slots', d, x, k) {}
    forall d: nat, x, k: nat | Parks(slots', d, x, k) && !(d == fd && x == e) ensures Parks(slots, d, x, k) {}
  }

  /** Further slots without bits disturb nobody. */
  lemma MoreSlots(slots: seq<FdContext>, slots': seq<FdContext>, calls: seq<Call>)
    requires slots <= slots' && forall d :: |slots| <= d < |slots'| ==> slots'[d].events == {}
    requires SlotsNameCalls(slots, calls) && CallsOk(slots, calls)
    ensures SlotsNameCalls(slots', calls) && CallsOk(slots', calls)
  {
    assert forall d :: 0 <= d < |slots| ==> slots'[d] == slots[d];
    forall d: nat, x, k: nat | Parks(slots, d, x, k) ensures Parks(slots', d, x, k) {}
    forall d: nat, x, k: nat | Parks(slots', d, x, k) ensures Parks(slots, d, x, k) {}
  }

  lemma GrownParks(t: Table, calls: seq<Call>, fd: nat)
    requires TableOk(t) && SlotsNameCalls(t.slots, calls) && CallsOk(t.slots, calls)
    ensures SlotsNameCalls(Grown(t.slots, fd), calls) && CallsOk(Grown(t.slots, fd), calls)
  {
    GrownOk(t, fd);
    MoreSlots(t.slots, Grown(t.slots, fd), calls);
  }

  lemma AddFillsSlot(t: Table, fd: nat, e: Event, c: nat, ok: bool)
    requires TableOk(t) && AddEvent(t, fd, e, 0, FiberHandle(c), ok).1 == Done
    ensures Filled(Grown(t.slots, fd), AddEvent(t, fd, e, 0, FiberHandle(c), ok).0.slots, fd, e, c)
  {
    EventRuns.AddResult(t, EventRuns.Registration(fd, e, 0, FiberHandle(c)), ok);
  }

  function Parked(call: Call): Call { call.(pc := Waiting, waits := call.waits + 1) }

  lemma RegisterDone(t: Table, calls: seq<Call>, timers: seq<Timeout>, c: nat, ok: bool)
    requires TableOk(t) && WaitsOk(t.slots, calls, timers) && c < |calls| && calls[c].pc == Armed
    requires AddEvent(t, calls[c].fd, calls[c].event, 0, FiberHandle(c), ok).1 == Done
    ensures WaitsOk(AddEvent(t, calls[c].fd, calls[c].event, 0, FiberHandle(c), ok).0.slots,
                    calls[c := Parked(calls[c])], timers)
  {
    GrownParks(t, calls, calls[c].fd);
    AddFillsSlot(t, calls[c].fd, calls[c].event, c, ok);
    FilledKeeps(Grown(t.slots, calls[c].fd), AddEvent(t, calls[c].fd, calls[c].event, 0, FiberHandle(c), ok).0.slots,
                calls, timers, c);
  }

  lemma FilledKeeps(slots: seq<FdContext>, slots': seq<FdContext>, calls: seq<Call>, timers: seq<Timeout>, c: nat)
    requires WaitsOk(slots, calls, timers) && c < |calls| && calls[c].pc == Armed
    requires Filled(slots, slots', calls[c].fd, calls[c].event, c)
    ensures WaitsOk(slots', calls[c := Parked(calls[c])], timers)
  {
    ParkAt(slots, slots', calls, c);
    FlagsFrame(calls, calls[c := Parked(calls[c])], timers);
  }

  lemma RegisterRefused(s: State, c: nat, t': Table)
    requires TableOk(t') && SlotsNameCalls(t'.slots, s.calls) && CallsOk(t'.slots, s.calls)
             && FlagsOk(s.calls, s.timers)
    requires c < |s.calls| && s.calls[c].pc == Armed
    ensures Inv(WithdrawTimer(SetCall(s.(table := t'), c, s.calls[c].(pc := Returned(false))), c))
  {
    var call := s.calls[c].(pc := Returned(false));
    MoveCall(t'.slots, s.calls, c, call);
    FlagsFrame(s.calls, s.calls[c := call], s.timers);
    WithdrawKeeps(SetCall(s.(table := t'), c, call), c);
  }

  lemma RefusedParks(s: State, c: nat, ok: bool)
    requires Inv(s) && Enabled(s, Register(c, ok)) && TableOp(s, Register(c, ok)).1 != Done
    ensures var t' := TableOp(s, Register(c, ok)).0;
            SlotsNameCalls(t'.slots, s.calls) && CallsOk(t'.slots, s.calls)
  {
    var fd := s.calls[c].fd;
    assert TableOp(s, Register(c, ok)).0 == s.table.(slots := Grown(s.table.slots, fd)) by {
      AddOk(s.table, fd, s.calls[c].event, 0, FiberHandle(c), ok);
    }
    GrownParks(s.table, s.calls, fd);
  }

  lemma AfterAddKeeps(s: State, c: nat, t': Table, out: Outcome)
    requires TableOk(t') && c < |s.calls| && s.calls[c].pc == Armed && FlagsOk(s.calls, s.timers)
    requires out == Done ==> WaitsOk(t'.slots, s.calls[c := Parked(s.calls[c])], s.timers)
    requires out != Done ==> SlotsNameCalls(t'.slots, s.calls) && CallsOk(t'.slots, s.calls)
    ensures Inv(AfterAdd(s, c, t', out))
  {
    if out != Done { RegisterRefused(s, c, t'); }
  }

  lemma RegisterKeeps(s: State, c: nat, ok: bool)
    requires Inv(s) && Enabled(s, Register(c, ok))
    ensures Inv(DoRegister(s, c, ok))
  {
    var (t', out) := TableOp(s, Register(c, ok));
    assert TableOk(t') by {
      AddOk(s.table, s.calls[c].fd, s.calls[c].event, 0, FiberHandle(c), ok);
    }
    if out == Done {
      RegisterDone(s.table, s.calls, s.timers, c, ok);
    } else {
      RefusedParks(s, c, ok);
    }
    AfterAddKeeps(s, c, t', out);
  }

  lemma AttemptKeeps(s: State, c: nat, again: bool)
    requires Inv(s) && Enabled(s, Attempt(c, again))
    ensures Inv(DoAttempt(s, c, again))
  {
    var s' := DoAttempt(s, c, again);
    MoveCall(s.table.slots, s.calls, c, s'.calls[c]);
    FlagsFrame(s.calls, s'.calls, s.timers);
    TimersFrame(s'.calls, s.timers, s'.timers);
  }

  lemma ResumeKeeps(s: State, c: nat)
    requires Inv(s) && Enabled(s, Resume(c))
    ensures Inv(DoResume(s, c))
  {
    var call := DoResume(s, c).calls[c];
    MoveCall(s.table.slots, s.calls, c, call);
    FlagsFrame(s.calls, s.calls[c := call], s.timers);
    WithdrawKeeps(SetCall(s, c, call), c);
  }

  lemma BeginKeeps(s: State, call: Call)
    requires Inv(s) && call.pc == Trying && call.waits == call.resumes && !call.cancelled
    ensures Inv(s.(calls := s.calls + [call]))
  {}

  lemma FlagKeeps(s: State, t: nat)
    requires Inv(s) && Enabled(s, CbFlag(t))
    ensures Inv(Apply(s, CbFlag(t)))
  {
    var s', c := Apply(s, CbFlag(t)), s.timers[t].call;
    assert CallsOk(s.table.slots, s'.calls) && SlotsNameCalls(s.table.slots, s'.calls);
    forall k | 0 <= k < |s'.calls| && s'.calls[k].cancelled ensures HasWriter(s'.timers, k) {
      if k == c { assert s'.timers[t].call == c; } else { WriterKept(s.timers, s'.timers, k); }
    }
  }

  lemma TableOpKeeps(s: State, a: Action)
    requires Inv(s) && (a.Ready? || a.Close? || a.CancelFrom? || a.CbCancel?) && TableOp(s, a).1 != Aborted
    ensures Inv(TableStep(s, TableOp(s, a).0))
  {
    var fd, bits := OpHandsOver(s, a);
    if TableOp(s, a).1 == Done { TableStepKeeps(s, fd, bits, TableOp(s, a).0); } else { QuietTableStep(s); }
  }

  lemma InvStep(s: State, a: Action)
    requires Inv(s) && Enabled(s, a)
    ensures Inv(Apply(s, a))
  {
    match a
    case Begin(kind, fd, event, hasTimeout) =>
      BeginKeeps(s, Call(kind, fd, event, hasTimeout, Trying, false, None, 0, 0));
    case Attempt(c, again) => AttemptKeeps(s, c, again);
    case Register(c, ok) => RegisterKeeps(s, c, ok);
    case Resume(c) => ResumeKeeps(s, c);
    case CbFlag(t) => FlagKeeps(s, t);
    case CbCancel(t, _) =>
      TableOpKeeps(s, a);
      TimersFrame(Apply(s, a).calls, s.timers, Apply(s, a).timers);
    case Expire(t) => TimersFrame(s.calls, s.timers, Apply(s, a).timers);
    case CbLock(t) => TimersFrame(s.calls, s.timers, Apply(s, a).timers);
    case CbCheck(t) => TimersFrame(s.calls, s.timers, Apply(s, a).timers);
    case _ => TableOpKeeps(s, a);
  }

  lemma {:induction false} RunInv(s: State, states: seq<State>, acts: seq<Action>, i: nat)
    requires Inv(s) && RunFrom(s, states, acts) && i < |states|
    ensures Inv(states[i])
  {
    if i > 0 {
      RunInv(s, states, acts, i - 1);
      InvStep(states[i - 1], acts[i - 1]);
    }
  }
}
