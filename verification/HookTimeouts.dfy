/**
 * When a blocking call ends as timed out: exactly when a callback of its own has written its flag by the
 * time it goes on, over the runs of whole table operations and over those that take them apart.
 */
module HookTimeouts {
  import opened Common
  import opened EventTable
  import opened HookWait
  import opened HookRuns
  import HL = HookLate
  import opened EventAttached
  import E = EventRace
  import R = EventRuns
  import HX = HookRace

  // ---------------------------------------------------------------- the invariant

  /** From arming the timeout to going on after the wait. */
  predicate InWait(pc: Pc) { pc == Armed || pc == Waiting || pc == Runnable }

  /** A callback that has written the flag of its call left it set. */
  ghost predicate WritersHeard(calls: seq<Call>, timers: seq<Timeout>) {
    forall t :: 0 <= t < |timers| && WroteFlag(timers[t].phase) ==>
      timers[t].call < |calls| && calls[timers[t].call].cancelled
  }

  /** A pending timeout is the one its call has armed for the wait it is in. */
  ghost predicate PendingIsArmed(calls: seq<Call>, timers: seq<Timeout>) {
    forall t :: 0 <= t < |timers| && timers[t].phase == Pending ==>
      timers[t].call < |calls| && calls[timers[t].call].timer == Some(t) && InWait(calls[timers[t].call].pc)
  }

  /** A call in a wait has a timeout of its own exactly if it asked for one. */
  ghost predicate ArmedAsAsked(calls: seq<Call>, timers: seq<Timeout>) {
    forall c :: 0 <= c < |calls| && InWait(calls[c].pc) ==>
      && (calls[c].timer.Some? <==> calls[c].hasTimeout)
      && (calls[c].timer.Some? ==> calls[c].timer.value < |timers| && timers[calls[c].timer.value].call == c)
  }

  ghost predicate TimeoutsOk(calls: seq<Call>, timers: seq<Timeout>) {
    WritersHeard(calls, timers) && PendingIsArmed(calls, timers) && ArmedAsAsked(calls, timers)
  }

  // ---------------------------------------------------------------- steps

  /** Steps of calls and callbacks that leave the table alone. */
  lemma OwnKeeps(s: State, a: Action)
    requires HX.IsLocal(a) && Enabled(s, a) && TimeoutsOk(s.calls, s.timers)
    ensures TimeoutsOk(Apply(s, a).calls, Apply(s, a).timers)
  {
    if a.Attempt? { AttemptKeeps(s, a.c, a.again); }
    else if a.Resume? { ResumeKeeps(s, a.c); }
    else if !a.Begin? { CallbackKeeps(s, a); }
  }

  lemma AttemptKeeps(s: State, c: nat, again: bool)
    requires TimeoutsOk(s.calls, s.timers) && c < |s.calls| && s.calls[c].pc == Trying
    ensures TimeoutsOk(DoAttempt(s, c, again).calls, DoAttempt(s, c, again).timers)
  {}

  lemma ResumeKeeps(s: State, c: nat)
    requires TimeoutsOk(s.calls, s.timers) && c < |s.calls| && s.calls[c].pc == Runnable
    ensures TimeoutsOk(DoResume(s, c).calls, DoResume(s, c).timers)
  {}

  lemma CallbackKeeps(s: State, a: Action)
    requires (a.Expire? || a.CbLock? || a.CbCheck? || a.CbFlag?) && Enabled(s, a) && TimeoutsOk(s.calls, s.timers)
    ensures TimeoutsOk(Apply(s, a).calls, Apply(s, a).timers)
  {
    match a case _ =>
  }

  lemma AnswerKeeps(s: State, c: nat, t': Table, out: Outcome)
    requires TimeoutsOk(s.calls, s.timers) && c < |s.calls| && s.calls[c].pc == Armed
    ensures TimeoutsOk(AfterAdd(s, c, t', out).calls, AfterAdd(s, c, t', out).timers)
  {}

  lemma WokenKeeps(calls: seq<Call>, calls': seq<Call>, timers: seq<Timeout>)
    requires TimeoutsOk(calls, timers) && |calls'| == |calls|
    requires forall c :: 0 <= c < |calls| ==> HX.AtMostResumed(calls[c], calls'[c])
    ensures TimeoutsOk(calls', timers)
  {}

  /** The callback has called cancelEvent. */
  lemma CallbackEnds(calls: seq<Call>, timers: seq<Timeout>, t: nat)
    requires TimeoutsOk(calls, timers) && t < |timers| && timers[t].phase == Flagged
    ensures TimeoutsOk(calls, timers[t := timers[t].(phase := Finished(true))])
  {}

  lemma TimeoutStep(s: State, a: Action)
    requires Inv(s) && Enabled(s, a) && TimeoutsOk(s.calls, s.timers)
    ensures TimeoutsOk(Apply(s, a).calls, Apply(s, a).timers)
  {
    if HX.IsLocal(a) {
      OwnKeeps(s, a);
    } else if a.Register? {
      AnswerKeeps(s, a.c, TableOp(s, a).0, TableOp(s, a).1);
    } else {
      TableKeeps(s, a);
    }
  }

  lemma TableKeeps(s: State, a: Action)
    requires Inv(s) && Enabled(s, a) && TimeoutsOk(s.calls, s.timers)
    requires a.Ready? || a.Close? || a.CancelFrom? || a.CbCancel?
    ensures TimeoutsOk(Apply(s, a).calls, Apply(s, a).timers)
  {
    var calls' := Apply(s, a).calls;
    forall c | 0 <= c < |s.calls| ensures |calls'| == |s.calls| && HX.AtMostResumed(s.calls[c], calls'[c]) {
      HL.TableResumes(s, a, c);
    }
    WokenKeeps(s.calls, calls', s.timers);
    if a.CbCancel? { CallbackEnds(calls', s.timers, a.t); }
  }

  lemma {:induction false} RunTimeouts(states: seq<State>, acts: seq<Action>, i: nat)
    requires RunFrom(Init(), states, acts) && i < |states|
    ensures Inv(states[i]) && TimeoutsOk(states[i].calls, states[i].timers)
  {
    HL.InitInv();
    RunInv(Init(), states, acts, i);
    if i > 0 {
      RunTimeouts(states, acts, i - 1);
      TimeoutStep(states[i - 1], acts[i - 1]);
    }
  }

  // ---------------------------------------------------------------- going on after the wait

  /** What becomes of a woken call, and that no timeout of it is left pending. */
  ghost predicate GoesOn(call: Call, timers: seq<Timeout>, c: nat, call': Call, timers': seq<Timeout>) {
    && (call'.pc == Returned(true) <==> HasWriter(timers, c))
    && (!HasWriter(timers, c) ==> call'.pc == if call.kind == DoIo then Trying else Returned(false))
    && forall t :: 0 <= t < |timers'| && timers'[t].call == c ==> timers'[t].phase != Pending
  }

  lemma ResumeIff(s: State, c: nat)
    requires FlagsOk(s.calls, s.timers) && TimeoutsOk(s.calls, s.timers) && Enabled(s, Resume(c))
    ensures GoesOn(s.calls[c], s.timers, c, Apply(s, Resume(c)).calls[c], Apply(s, Resume(c)).timers)
  {
    assert HasWriter(s.timers, c) <==> s.calls[c].cancelled;
  }

  /**
   * Over every run: the step in which a woken call goes on ends it as timed out if and only if a timeout
   * callback of that same call has written its flag by then; otherwise do_io tries again and connect returns.
   */
  lemma TimedOutIff(states: seq<State>, acts: seq<Action>, i: nat, c: nat)
    requires RunFrom(Init(), states, acts) && i < |acts| && acts[i] == Resume(c)
    ensures c < |states[i].calls| && c < |states[i + 1].calls|
    ensures GoesOn(states[i].calls[c], states[i].timers, c, states[i + 1].calls[c], states[i + 1].timers)
  {
    RunTimeouts(states, acts, i);
    ResumeIff(states[i], c);
  }

  /** A call ends with this step exactly if its attempt succeeds, addEvent is refused, or its wait is over. */
  lemma ReturnsExactlyWhen(s: State, a: Action, c: nat)
    requires Inv(s) && Enabled(s, a) && TimeoutsOk(s.calls, s.timers) && c < |s.calls| && !s.calls[c].pc.Returned?
    ensures c < |Apply(s, a).calls|
    ensures Apply(s, a).calls[c].pc.Returned? <==>
            || a == Attempt(c, false)
            || (a.Register? && a.c == c && TableOp(s, a).1 == Refused)
            || (a == Resume(c) && (HasWriter(s.timers, c) || s.calls[c].kind == Connect))
  {
    if a.Ready? || a.Close? || a.CancelFrom? || a.CbCancel? {
      HL.TableResumes(s, a, c);
    } else if a == Resume(c) {
      ResumeIff(s, c);
    } else {
      OthersReturn(s, a, c);
    }
  }

  lemma OthersReturn(s: State, a: Action, c: nat)
    requires Enabled(s, a) && c < |s.calls| && !s.calls[c].pc.Returned? && a != Resume(c)
    requires !(a.Ready? || a.Close? || a.CancelFrom? || a.CbCancel?)
    ensures c < |Apply(s, a).calls|
    ensures Apply(s, a).calls[c].pc.Returned? <==>
            a == Attempt(c, false) || (a.Register? && a.c == c && TableOp(s, a).1 == Refused)
  {
    match a case _ =>
  }

  // ---------------------------------------------------------------- the table taken apart

  lemma RaceStep(j: HX.State, x: HX.Action)
    requires HX.Inv(j) && HX.Enabled(j, x) && TimeoutsOk(j.calls, j.timers)
    ensures TimeoutsOk(HX.Apply(j, x).calls, HX.Apply(j, x).timers)
  {
    match x
    case Own(a) => OwnKeeps(HX.Bare(j), a);
    case Lookup(k) => LookupKeeps(j, k);
    case Grow(k) => HX.GrowKeeps(j, k);
    case Commit(k, ok) => CommitKeeps(j, k, ok);
    case _ =>
  }

  lemma LookupKeeps(j: HX.State, k: nat)
    requires HX.Inv(j) && HX.Enabled(j, HX.Lookup(k)) && TimeoutsOk(j.calls, j.timers)
    ensures TimeoutsOk(HX.Apply(j, HX.Lookup(k)).calls, HX.Apply(j, HX.Lookup(k)).timers)
  {
    HX.LookupKeeps(j, k);
    assert HX.OpOk(j.calls, j.timers, j.race.calls[k], j.purpose[k]);
    if j.purpose[k].Timeout? && j.timers[j.purpose[k].t].phase == Flagged {
      CallbackEnds(j.calls, j.timers, j.purpose[k].t);
    }
  }

  lemma CommitKeeps(j: HX.State, k: nat, ok: bool)
    requires HX.Inv(j) && HX.Enabled(j, HX.Commit(k, ok)) && TimeoutsOk(j.calls, j.timers)
    ensures TimeoutsOk(HX.Apply(j, HX.Commit(k, ok)).calls, HX.Apply(j, HX.Commit(k, ok)).timers)
  {
    var r', op := E.Apply(j.race, E.Commit(k, ok)), E.WithOk(j.race.calls[k].op, ok);
    var out := E.Section(j.race, j.race.calls[k].op, j.race.calls[k].pc.ctx, ok).1;
    HX.CommitEnds(j, k, ok);
    if j.purpose[k].Park? {
      HX.MakerArmed(j, k);
      AddKeeps(j, k, r', out);
    } else {
      HX.OthersOp(j, k, ok);
      OtherKeeps(j, k, r', op, out);
    }
  }

  lemma AddKeeps(j: HX.State, k: nat, r': E.State, out: Outcome)
    requires HX.Ends(j, k, r', out) && j.purpose[k].Park? && TimeoutsOk(j.calls, j.timers)
    requires j.purpose[k].c < |j.calls| && j.calls[j.purpose[k].c].pc == Armed
    ensures TimeoutsOk(HX.Went(j, k, r').calls, HX.Went(j, k, r').timers)
  {
    AnswerKeeps(HX.Bare(j), j.purpose[k].c, InitTable(), out);
  }

  lemma OtherKeeps(j: HX.State, k: nat, r': E.State, op: R.Action, out: Outcome)
    requires HX.Inv(j) && HX.Answered(j, k, r', op, out) && !j.purpose[k].Park? && !op.Add? && !op.Del?
    requires TimeoutsOk(j.calls, j.timers)
    ensures TimeoutsOk(HX.Went(j, k, r').calls, HX.Went(j, k, r').timers)
  {
    var j' := HX.Went(j, k, r');
    HX.OthersAnswered(HX.Shown(j), op, Attached(r'), out);
    HX.OtherEnded(j, k, r', out);
    WokenKeeps(j.calls, j'.calls, j.timers);
    assert HX.OpOk(j.calls, j.timers, j.race.calls[k], j.purpose[k]);
    if j.purpose[k].Timeout? { CallbackEnds(j'.calls, j.timers, j.purpose[k].t); }
  }

  lemma RaceNext(states: seq<HX.State>, acts: seq<HX.Action>, i: nat)
    requires HX.IsRun(states, acts) && 0 < i < |states| && HX.Inv(states[i - 1])
    requires TimeoutsOk(states[i - 1].calls, states[i - 1].timers)
    ensures TimeoutsOk(states[i].calls, states[i].timers)
  {
    var k := i - 1;
    assert HX.IsStep(states[k], acts[k], states[k + 1]);
    RaceStep(states[k], acts[k]);
  }

  lemma {:induction false} RaceTimeouts(states: seq<HX.State>, acts: seq<HX.Action>, i: nat)
    requires HX.IsRun(states, acts) && i < |states|
    ensures TimeoutsOk(states[i].calls, states[i].timers)
  {
    if i > 0 {
      RaceTimeouts(states, acts, i - 1);
      HX.RunInv(states, acts, i - 1);
      RaceNext(states, acts, i);
    }
  }

  /** The same over the runs in which every operation of the table is taken apart. */
  lemma TimedOutIffSplit(states: seq<HX.State>, acts: seq<HX.Action>, i: nat, c: nat)
    requires HX.IsRun(states, acts) && i < |acts| && acts[i] == HX.Own(Resume(c))
    ensures c < |states[i].calls| && c < |states[i + 1].calls|
    ensures GoesOn(states[i].calls[c], states[i].timers, c, states[i + 1].calls[c], states[i + 1].timers)
  {
    HX.RunInv(states, acts, i);
    RaceTimeouts(states, acts, i);
    assert HX.IsStep(states[i], acts[i], states[i + 1]);
    ResumeIff(HX.Bare(states[i]), c);
  }

  // ---------------------------------------------------------------- it does happen

  /** A call waits with its timeout pending. */
  lemma CallWaits(kind: Kind, e: Event) returns (s: State)
    ensures HL.Reachable(s) && s.timers == [Timeout(0, Pending)]
    ensures s.calls == [Call(kind, 5, e, true, Waiting, false, Some(0), 1, 0)]
  {
    s := Init();
    var none: seq<Action> := [];
    assert RunFrom(s, [s], none) && [s][|none|] == s;
    HL.ReachStep(s, Begin(kind, 5, e, true));
    s := Apply(s, Begin(kind, 5, e, true));
    HL.ReachStep(s, Attempt(0, true));
    s := Apply(s, Attempt(0, true));
    s := HL.ReachRegister(s, 0);
  }

  /** Its callback writes the flag. */
  lemma FlagWritten(kind: Kind, e: Event) returns (s: State)
    ensures HL.Reachable(s) && s.timers == [Timeout(0, Flagged)]
    ensures s.calls == [Call(kind, 5, e, true, Waiting, true, Some(0), 1, 0)]
  {
    s := CallWaits(kind, e);
    HL.ReachStep(s, Expire(0));
    s := Apply(s, Expire(0));
    HL.ReachStep(s, CbLock(0));
    s := Apply(s, CbLock(0));
    HL.ReachStep(s, CbCheck(0));
    s := Apply(s, CbCheck(0));
    HL.ReachStep(s, CbFlag(0));
    s := Apply(s, CbFlag(0));
  }

  /** Nothing is reported for a call of either kind on either event: it ends as timed out. */
  lemma TimesOut(kind: Kind, e: Event) returns (s: State)
    ensures HL.Reachable(s) && |s.calls| == 1 && s.calls[0].kind == kind && s.calls[0].event == e
    ensures s.calls[0].pc == Returned(true) && s.calls[0].waits == s.calls[0].resumes == 1
  {
    s := FlagWritten(kind, e);
    s := CallbackCancels(s);
    HL.ReachStep(s, Resume(0));
    s := Apply(s, Resume(0));
  }

  lemma CallbackCancels(s: State) returns (s': State)
    requires HL.Reachable(s) && |s.calls| == 1 && s.calls[0].pc == Waiting && s.timers == [Timeout(0, Flagged)]
    ensures HL.Reachable(s') && s'.calls == [Woken(s.calls[0])] && s'.timers == [Timeout(0, Finished(true))]
  {
    HL.ReachableInv(s);
    HL.CancelEnabled(s, 0);
    assert Parks(s.table.slots, s.calls[0].fd, s.calls[0].event, 0);
    HL.WakesParked(s, 0, 0);
    HL.ReachStep(s, CbCancel(0, true));
    s' := Apply(s, CbCancel(0, true));
  }
}
