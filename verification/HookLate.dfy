/** What holds over every run of the blocking calls, and exactly when a late timeout still acts. */
module HookLate {
  import opened Common
  import opened EventTable
  import opened EventDelivery
  import opened HookWait
  import opened HookRuns

  lemma InitInv()
    ensures Inv(Init())
  {
    InitOk();
  }

  // ---------------------------------------------------------------- one resumption per wait

  /** A step resumes a call at most once, and only one that is waiting. */
  lemma ResumedOnlyWhileWaiting(s: State, a: Action, c: nat)
    requires Inv(s) && Enabled(s, a) && c < |s.calls|
    ensures c < |Apply(s, a).calls|
    ensures var call, call' := s.calls[c], Apply(s, a).calls[c];
            || call'.resumes == call.resumes
            || (call.pc == Waiting && call' == Woken(call))
    ensures s.calls[c].pc.Returned? ==>
            Apply(s, a).calls[c].pc == s.calls[c].pc && (s.calls[c].cancelled ==> Apply(s, a).calls[c].cancelled)
  {
    if a.Ready? || a.Close? || a.CancelFrom? || a.CbCancel? {
      TableResumes(s, a, c);
    } else {
      OthersResumeNone(s, a, c);
    }
  }

  lemma TableResumes(s: State, a: Action, c: nat)
    requires Inv(s) && Enabled(s, a) && c < |s.calls| && (a.Ready? || a.Close? || a.CancelFrom? || a.CbCancel?)
    ensures |Apply(s, a).calls| == |s.calls|
    ensures Apply(s, a).calls[c] == s.calls[c]
            || (s.calls[c].pc == Waiting && Apply(s, a).calls[c] == Woken(s.calls[c]))
  {
    var fd, bits := OpHandsOver(s, a);
    if TableOp(s, a).1 == Done { TableStepWakes(s, fd, bits, TableOp(s, a).0); } else { QuietTableStep(s); }
  }

  lemma OthersResumeNone(s: State, a: Action, c: nat)
    requires Enabled(s, a) && c < |s.calls| && !(a.Ready? || a.Close? || a.CancelFrom? || a.CbCancel?)
    ensures c < |Apply(s, a).calls| && Apply(s, a).calls[c].resumes == s.calls[c].resumes
    ensures s.calls[c].pc.Returned? ==>
            Apply(s, a).calls[c].pc == s.calls[c].pc && (s.calls[c].cancelled ==> Apply(s, a).calls[c].cancelled)
  {
    match a case _ =>
  }

  /** Whichever of readiness, timeout, close or cancel comes first, each wait is resumed at most once. */
  lemma OneResumptionPerWait(states: seq<State>, acts: seq<Action>, i: nat, c: nat)
    requires RunFrom(Init(), states, acts) && i < |states| && c < |states[i].calls|
    ensures var call := states[i].calls[c];
            && call.resumes <= call.waits <= call.resumes + 1
            && (call.waits == call.resumes + 1 <==> call.pc == Waiting)
            && (call.pc == Waiting <==> Parks(states[i].table.slots, call.fd, call.event, c))
  {
    InitInv();
    RunInv(Init(), states, acts, i);
  }

  /** A call reports ETIMEDOUT only when a timeout callback of that same call has set its flag. */
  lemma TimeoutIsOwn(states: seq<State>, acts: seq<Action>, i: nat, c: nat)
    requires RunFrom(Init(), states, acts) && i < |states| && c < |states[i].calls|
    requires states[i].calls[c].pc == Returned(true)
    ensures exists t ::
              0 <= t < |states[i].timers| && states[i].timers[t].call == c && WroteFlag(states[i].timers[t].phase)
  {
    InitInv();
    RunInv(Init(), states, acts, i);
    assert HasWriter(states[i].timers, c);
  }

  // ---------------------------------------------------------------- timeouts that outlive their call

  /** Timeout `t` of call `c` is past the point where its callback gives up. */
  predicate Past(s: State, t: nat, c: nat) {
    && t < |s.timers| && s.timers[t].call == c && c < |s.calls|
    && (s.timers[t].phase == Checked || s.timers[t].phase == Flagged
        || (s.timers[t].phase == Locked && !s.calls[c].cancelled))
  }

  ghost predicate InFlight(s: State, c: nat) {
    exists t :: Past(s, t, c)
  }

  ghost predicate Quiet(s: State, c: nat) {
    HasReturned(s, c) && !InFlight(s, c)
  }

  /** How one step moves one timeout. */
  lemma TimeoutMoves(s: State, a: Action, t: nat)
    requires Enabled(s, a) && t < |s.timers|
    ensures t < |Apply(s, a).timers| && Apply(s, a).timers[t].call == s.timers[t].call
    ensures var p, p' := s.timers[t].phase, Apply(s, a).timers[t].phase;
            || p' == p || p' == HandedOut || p' == Withdrawn || p'.Finished?
            || (a == CbLock(t) && p' == Locked && Alive(s, s.timers[t].call))
            || (a == CbCheck(t) && p == Locked && p' == Checked && s.timers[t].call < |s.calls|
                && !s.calls[s.timers[t].call].cancelled)
            || (a == CbFlag(t) && p == Checked && p' == Flagged)
  {
    match a case _ =>
  }

  lemma NewTimeoutsPend(s: State, a: Action, t: nat)
    requires Enabled(s, a) && |s.timers| <= t < |Apply(s, a).timers|
    ensures Apply(s, a).timers[t].phase == Pending
  {
    match a case _ =>
  }

  lemma QuietStep(s: State, a: Action, c: nat)
    requires Inv(s) && Enabled(s, a) && Quiet(s, c)
    ensures Quiet(Apply(s, a), c)
    ensures a.CbCancel? ==> s.timers[a.t].call != c
  {
    var s' := Apply(s, a);
    assert s'.calls[c].pc.Returned?
           && (s.calls[c].cancelled ==> s'.calls[c].cancelled) by { ResumedOnlyWhileWaiting(s, a, c); }
    NotPastAfter(s, a, c);
    if a.CbCancel? { assert !Past(s, a.t, c); }
  }

  lemma NotPastAfter(s: State, a: Action, c: nat)
    requires Enabled(s, a) && Quiet(s, c) && c < |Apply(s, a).calls|
             && (s.calls[c].cancelled ==> Apply(s, a).calls[c].cancelled)
    ensures forall t :: !Past(Apply(s, a), t, c)
  {
    forall t: nat ensures !Past(Apply(s, a), t, c) {
      assert !Past(s, t, c);
      if t < |s.timers| {
        TimeoutMoves(s, a, t);
        if a == CbLock(t) && s.timers[t].call == c && Alive(s, c) {
          var u :| 0 <= u < |s.timers| && s.timers[u].call == c && HoldsRef(s.timers[u].phase);
          assert !Past(s, u, c);
        }
      } else if t < |Apply(s, a).timers| {
        NewTimeoutsPend(s, a, t);
      }
    }
  }

  lemma {:induction false} QuietForever(s: State, states: seq<State>, acts: seq<Action>, c: nat, i: nat)
    requires Inv(s) && RunFrom(s, states, acts) && Quiet(s, c) && i < |states|
    ensures Quiet(states[i], c)
    ensures i < |acts| && acts[i].CbCancel? ==> states[i].timers[acts[i].t].call != c
  {
    if i > 0 {
      QuietForever(s, states, acts, c, i - 1);
      RunInv(s, states, acts, i - 1);
      QuietStep(states[i - 1], acts[i - 1], c);
    }
    if i < |acts| {
      RunInv(s, states, acts, i);
      QuietStep(states[i], acts[i], c);
    }
  }

  /** In some continuation a timeout callback of `c` calls cancelEvent. */
  ghost predicate StillCancels(s: State, c: nat, states: seq<State>, acts: seq<Action>) {
    && RunFrom(s, states, acts) && |acts| > 0
    && acts[|acts| - 1].CbCancel?
    && acts[|acts| - 1].t < |states[|acts| - 1].timers| && states[|acts| - 1].timers[acts[|acts| - 1].t].call == c
  }

  lemma CancelEnabled(s: State, t: nat)
    requires Inv(s) && t < |s.timers| && s.timers[t].phase == Flagged
    ensures Enabled(s, CbCancel(t, true))
  {
    var call := s.calls[s.timers[t].call];
    CancelOk(s.table, call.fd, call.event, true);
  }

  lemma Prepend(s: State, a: Action, c: nat, states: seq<State>, acts: seq<Action>)
    requires Enabled(s, a) && StillCancels(Apply(s, a), c, states, acts)
    ensures StillCancels(s, c, [s] + states, [a] + acts)
  {
    var states', acts' := [s] + states, [a] + acts;
    forall i | 0 <= i < |acts'| ensures Enabled(states'[i], acts'[i]) && states'[i + 1] == Apply(states'[i], acts'[i]) {
      if i > 0 { assert states'[i] == states[i - 1] && acts'[i] == acts[i - 1] && states'[i + 1] == states[i]; }
    }
  }

  /** A callback that is past its checks reaches cancelEvent by its own steps alone. */
  lemma InFlightCancels(s: State, t: nat, c: nat) returns (states: seq<State>, acts: seq<Action>)
    requires Inv(s) && Past(s, t, c)
    ensures StillCancels(s, c, states, acts)
    decreases if s.timers[t].phase == Locked then 2 else if s.timers[t].phase == Checked then 1 else 0
  {
    if s.timers[t].phase == Flagged {
      CancelEnabled(s, t);
      states, acts := [s, Apply(s, CbCancel(t, true))], [CbCancel(t, true)];
    } else {
      var a := if s.timers[t].phase == Locked then CbCheck(t) else CbFlag(t);
      InvStep(s, a);
      states, acts := InFlightCancels(Apply(s, a), t, c);
      Prepend(s, a, c, states, acts);
      states, acts := [s] + states, [a] + acts;
    }
  }

  /**
   * Once a call has returned, its timeouts can still cancel a wait on its descriptor exactly when
   * one of their callbacks is in flight at that moment, past its lock and its check.
   */
  lemma LateTimeoutIff(s: State, c: nat)
    requires Inv(s) && c < |s.calls| && HasReturned(s, c)
    ensures (exists states, acts :: StillCancels(s, c, states, acts)) <==> InFlight(s, c)
  {
    if InFlight(s, c) {
      var t :| Past(s, t, c);
      var states, acts := InFlightCancels(s, t, c);
    } else {
      forall states, acts | RunFrom(s, states, acts) && |acts| > 0
        ensures !StillCancels(s, c, states, acts)
      {
        QuietForever(s, states, acts, c, |acts| - 1);
      }
    }
  }

  /**
   * Such a late cancel resumes another call's wait although nothing was reported. A do_io tries
   * again; a connect_with_timeout goes on to read SO_ERROR and returns as if it had been told to.
   */
  lemma LateCancelResumes(s: State, t: nat, c': nat)
    requires Inv(s) && t < |s.timers| && s.timers[t].phase == Flagged && c' < |s.calls|
    requires s.calls[c'].pc == Waiting && !s.calls[c'].cancelled
    requires s.calls[s.timers[t].call].fd == s.calls[c'].fd && s.calls[s.timers[t].call].event == s.calls[c'].event
    ensures Enabled(s, CbCancel(t, true))
    ensures var s1 := Apply(s, CbCancel(t, true));
            && s1.calls[c'] == Woken(s.calls[c']) && Enabled(s1, Resume(c'))
            && Apply(s1, Resume(c')).calls[c'].pc == if s.calls[c'].kind == DoIo then Trying else Returned(false)
  {
    var fd, e := s.calls[c'].fd, s.calls[c'].event;
    CancelEnabled(s, t);
    assert Parks(s.table.slots, fd, e, c');
    WakesParked(s, t, c');
  }

  lemma CancelOne(t: Table, fd: nat, e: Event)
    requires TableOk(t) && fd < |t.slots| && e in t.slots[fd].events
    ensures HandsOver(t, CancelEvent(t, fd, e, true).0, fd, {e})
  {
    CancelOk(t, fd, e, true);
    var _, _ := CancelHandsOver(t, fd, e, true);
  }

  lemma WakesParked(s: State, t: nat, c': nat)
    requires TableOk(s.table) && SlotsNameCalls(s.table.slots, s.calls) && c' < |s.calls|
    requires t < |s.timers| && s.timers[t].call < |s.calls|
    requires s.calls[s.timers[t].call].fd == s.calls[c'].fd && s.calls[s.timers[t].call].event == s.calls[c'].event
    requires Parks(s.table.slots, s.calls[c'].fd, s.calls[c'].event, c')
    ensures TableStep(s, TableOp(s, CbCancel(t, true)).0).calls[c'] == Woken(s.calls[c'])
  {
    var fd, e := s.calls[c'].fd, s.calls[c'].event;
    var t' := TableOp(s, CbCancel(t, true)).0;
    CancelOne(s.table, fd, e);
    ParkedWoken(s, fd, e, c', t', {e});
  }

  lemma ParkedWoken(s: State, fd: nat, e: Event, c: nat, t': Table, bits: set<Event>)
    requires SlotsNameCalls(s.table.slots, s.calls) && c < |s.calls| && Parks(s.table.slots, fd, e, c)
    requires HandsOver(s.table, t', fd, bits) && e in bits
    ensures TableStep(s, t').calls[c] == Woken(s.calls[c])
  {
    TableStepWakes(s, fd, bits, t');
    assert ParkedIn(s.table.slots[fd], bits, c) by { match e case READ => case WRITE => }
  }

  // ---------------------------------------------------------------- it does happen

  lemma RegisterWorks(s: State, c: nat)
    requires Inv(s) && c < |s.calls| && s.calls[c].pc == Armed
    requires forall k :: 0 <= k < |s.calls| ==> s.calls[k].pc != Waiting
    ensures Enabled(s, Register(c, true))
    ensures Apply(s, Register(c, true)).calls == s.calls[c := Parked(s.calls[c])]
            && Apply(s, Register(c, true)).timers == s.timers
  {
    var fd, e := s.calls[c].fd, s.calls[c].event;
    if fd < |s.table.slots| && e in s.table.slots[fd].events {
      assert Parks(s.table.slots, fd, e, Context(s.table.slots[fd], e).fiber.value);
    }
    AddOk(s.table, fd, e, 0, FiberHandle(c), true);
  }

  lemma ReadyWakes(s: State, c: nat)
    requires Inv(s) && c < |s.calls| && s.calls[c].pc == Waiting
    ensures Enabled(s, Ready(s.calls[c].fd, {s.calls[c].event}, false, true))
    ensures Apply(s, Ready(s.calls[c].fd, {s.calls[c].event}, false, true)).calls[c] == Woken(s.calls[c])
  {
    var fd, e := s.calls[c].fd, s.calls[c].event;
    assert Parks(s.table.slots, fd, e, c);
    var t' := Deliver(s.table, fd, {e}, false, true).0;
    BitsHandOver(s.table, fd, {e}, false, {e});
    ParkedWoken(s, fd, e, c, t', {e});
  }

  ghost predicate Reachable(s: State) {
    exists states, acts :: RunFrom(Init(), states, acts) && states[|acts|] == s
  }

  lemma Append(states: seq<State>, acts: seq<Action>, a: Action)
    requires RunFrom(Init(), states, acts) && Enabled(states[|acts|], a)
    ensures RunFrom(Init(), states + [Apply(states[|acts|], a)], acts + [a])
  {}

  lemma ReachStep(s: State, a: Action)
    requires Reachable(s) && Enabled(s, a)
    ensures Reachable(Apply(s, a))
  {
    var states, acts :| RunFrom(Init(), states, acts) && states[|acts|] == s;
    Append(states, acts, a);
    assert (states + [Apply(s, a)])[|acts + [a]|] == Apply(s, a);
  }

  lemma ReachableInv(s: State)
    requires Reachable(s)
    ensures Inv(s)
  {
    var states, acts :| RunFrom(Init(), states, acts) && states[|acts|] == s;
    InitInv();
    RunInv(Init(), states, acts, |acts|);
  }

  /** RegisterWorks and ReadyWakes as moves between reachable states. */
  lemma ReachRegister(s: State, c: nat) returns (s': State)
    requires Reachable(s) && c < |s.calls| && s.calls[c].pc == Armed
    requires forall k :: 0 <= k < |s.calls| ==> s.calls[k].pc != Waiting
    ensures Reachable(s') && s'.calls == s.calls[c := Parked(s.calls[c])] && s'.timers == s.timers
  {
    ReachableInv(s);
    RegisterWorks(s, c);
    ReachStep(s, Register(c, true));
    s' := Apply(s, Register(c, true));
  }

  lemma ReachReady(s: State, c: nat) returns (s': State)
    requires Reachable(s) && c < |s.calls| && s.calls[c].pc == Waiting
    ensures Reachable(s') && |s'.calls| == |s.calls| && s'.calls[c] == Woken(s.calls[c]) && s'.timers == s.timers
  {
    ReachableInv(s);
    ReadyWakes(s, c);
    ReachStep(s, Ready(s.calls[c].fd, {s.calls[c].event}, false, true));
    s' := Apply(s, Ready(s.calls[c].fd, {s.calls[c].event}, false, true));
  }

  /** A first call on descriptor 5 waits, with its timeout pending. */
  lemma FirstCallWaits(e: Event) returns (s: State)
    ensures Reachable(s) && |s.calls| == 1
    ensures s.calls[0] == Call(DoIo, 5, e, true, Waiting, false, Some(0), 1, 0) && s.timers == [Timeout(0, Pending)]
  {
    s := Init();
    var none: seq<Action> := [];
    assert RunFrom(s, [s], none) && [s][|none|] == s;
    ReachStep(s, Begin(DoIo, 5, e, true));
    s := Apply(s, Begin(DoIo, 5, e, true));
    ReachStep(s, Attempt(0, true));
    s := Apply(s, Attempt(0, true));
    s := ReachRegister(s, 0);
  }

  /** The timeout expires and its callback passes the check. */
  lemma CallbackChecks(e: Event) returns (s: State)
    ensures Reachable(s) && |s.calls| == 1
    ensures s.calls[0] == Call(DoIo, 5, e, true, Waiting, false, Some(0), 1, 0) && s.timers == [Timeout(0, Checked)]
  {
    s := FirstCallWaits(e);
    ReachStep(s, Expire(0));
    s := Apply(s, Expire(0));
    ReachStep(s, CbLock(0));
    s := Apply(s, CbLock(0));
    ReachStep(s, CbCheck(0));
    s := Apply(s, CbCheck(0));
  }

  /** Meanwhile the descriptor becomes ready and the call returns. */
  lemma FirstCallReturns(e: Event) returns (s: State)
    ensures Reachable(s) && |s.calls| == 1 && s.timers == [Timeout(0, Checked)]
    ensures s.calls[0].pc == Returned(false) && s.calls[0].fd == 5 && s.calls[0].event == e
  {
    s := CallbackChecks(e);
    s := ReachReady(s, 0);
    ReachStep(s, Resume(0));
    s := Apply(s, Resume(0));
    ReachStep(s, Attempt(0, false));
    s := Apply(s, Attempt(0, false));
  }

  /** A second call waits on the same descriptor; then the callback writes the first call's flag. */
  lemma SecondCallWaits(kind: Kind, e: Event) returns (s: State)
    ensures Reachable(s) && |s.calls| == 2 && s.timers == [Timeout(0, Flagged)]
    ensures s.calls[0].pc == Returned(false) && s.calls[0].fd == 5 && s.calls[0].event == e
    ensures s.calls[1] == Call(kind, 5, e, false, Waiting, false, None, 1, 0)
  {
    s := FirstCallReturns(e);
    s := SecondBegins(s, kind, e);
    s := ReachRegister(s, 1);
    ReachStep(s, CbFlag(0));
    s := Apply(s, CbFlag(0));
  }

  lemma SecondBegins(s: State, kind: Kind, e: Event) returns (s': State)
    requires Reachable(s) && |s.calls| == 1
    ensures Reachable(s') && s'.timers == s.timers
    ensures s'.calls == [s.calls[0], Call(kind, 5, e, false, Armed, false, None, 0, 0)]
  {
    ReachStep(s, Begin(kind, 5, e, false));
    s' := Apply(s, Begin(kind, 5, e, false));
    ReachStep(s', Attempt(1, true));
    s' := Apply(s', Attempt(1, true));
  }

  /**
   * So the claim that a timeout never touches a later call on the same descriptor fails: in a
   * reachable state the callback of a call that has returned cancels the wait of the next call.
   */
  lemma LateTimeoutHitsLaterCall(kind: Kind, e: Event) returns (s: State)
    ensures Reachable(s) && |s.calls| == 2 && |s.timers| == 1
    ensures HasReturned(s, 0) && s.timers[0].call == 0
    ensures s.calls[1] == Call(kind, 5, e, false, Waiting, false, None, 1, 0)
    ensures Enabled(s, CbCancel(0, true)) && Apply(s, CbCancel(0, true)).calls[1] == Woken(s.calls[1])
  {
    s := SecondCallWaits(kind, e);
    ReachableInv(s);
    LateCancelResumes(s, 0, 1);
  }

  /** For a connect that is the end: it returns without a report, a timeout or a close of its own. */
  lemma LateTimeoutEndsConnect() returns (s: State, s': State)
    ensures Reachable(s) && |s.calls| == 2 && HasReturned(s, 0)
    ensures s.calls[1] == Call(Connect, 5, WRITE, false, Waiting, false, None, 1, 0)
    ensures Enabled(s, CbCancel(0, true)) && Enabled(Apply(s, CbCancel(0, true)), Resume(1))
    ensures s' == Apply(Apply(s, CbCancel(0, true)), Resume(1)) && Reachable(s')
    ensures |s'.calls| == 2 && s'.calls[1].pc == Returned(false)
  {
    s := SecondCallWaits(Connect, WRITE);
    s' := CancelThenResume(s, 0, 1);
  }

  lemma CancelThenResume(s: State, t: nat, c': nat) returns (s': State)
    requires Reachable(s) && t < |s.timers| && s.timers[t].phase == Flagged && s.timers[t].call < |s.calls|
             && c' < |s.calls|
    requires s.calls[c'].pc == Waiting && !s.calls[c'].cancelled && s.calls[c'].kind == Connect
    requires s.calls[s.timers[t].call].fd == s.calls[c'].fd && s.calls[s.timers[t].call].event == s.calls[c'].event
    ensures Enabled(s, CbCancel(t, true)) && Enabled(Apply(s, CbCancel(t, true)), Resume(c'))
    ensures s' == Apply(Apply(s, CbCancel(t, true)), Resume(c')) && Reachable(s')
    ensures |s'.calls| == |s.calls| && s'.calls[c'].pc == Returned(false)
  {
    ReachableInv(s);
    LateCancelResumes(s, t, c');
    ReachStep(s, CbCancel(t, true));
    var s1 := Apply(s, CbCancel(t, true));
    ReachStep(s1, Resume(c'));
    s' := Apply(s1, Resume(c'));
  }
}
