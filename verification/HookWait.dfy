/**
 * Blocking socket calls on fibers (hx_sylar/hook.cc, `do_io` and `connect_with_timeout`): the race
 * between readiness, timeout and close. Calls park in the event table; a timeout is a timer whose
 * callback runs as separate steps on another worker. A fiber is named by the call it is in.
 */
module HookWait {
  import opened Common
  import opened EventTable

  datatype Kind = DoIo | Connect

  datatype Pc =
    | Trying                  // about to call the original function
    | Armed                   // EAGAIN seen, timer added if there is a timeout, addEvent not called yet
    | Waiting                 // registered; yielding or yielded
    | Runnable                // scheduled by the event table
    | Returned(timedOut: bool)

  /** `cancelled` is the flag shared with the timeouts; `waits` and `resumes` count, as history. */
  datatype Call = Call(kind: Kind, fd: nat, event: Event, hasTimeout: bool, pc: Pc, cancelled: bool,
                       timer: Option<nat>, waits: nat, resumes: nat)

  /** The life of one timeout: pending, taken by listExpiredCb, then the steps of its callback. */
  datatype Phase =
    | Pending
    | HandedOut
    | Locked                  // weak_cond.lock() succeeded: the flag is kept alive
    | Checked                 // saw cancelled == 0
    | Flagged                 // wrote cancelled = ETIMEDOUT, cancelEvent not called yet
    | Finished(acted: bool)
    | Withdrawn               // timer->cancel() came first

  datatype Timeout = Timeout(call: nat, phase: Phase)

  datatype State = State(table: Table, calls: seq<Call>, timers: seq<Timeout>)

  datatype Action =
    | Begin(kind: Kind, fd: nat, event: Event, hasTimeout: bool)
    | Attempt(c: nat, again: bool)
    | Register(c: nat, ok: bool)
    | Ready(fd: nat, reported: set<Event>, errHup: bool, ok: bool)
    | Close(fd: nat, ok: bool)
    | CancelFrom(fd: nat, event: Event, ok: bool)
    | Expire(t: nat)
    | CbLock(t: nat)
    | CbCheck(t: nat)
    | CbFlag(t: nat)
    | CbCancel(t: nat, ok: bool)
    | Resume(c: nat)

  function Init(): State { State(InitTable(), [], []) }

  predicate HasReturned(s: State, c: nat) { c < |s.calls| && s.calls[c].pc.Returned? }

  /** A callback between its lock() and its end holds a strong reference to the flag. */
  predicate HoldsRef(p: Phase) { p.Locked? || p.Checked? || p.Flagged? }

  /** The weak pointer can still be locked: the call is running, or another of its callbacks is. */
  predicate Alive(s: State, c: nat) {
    !HasReturned(s, c) || exists t :: 0 <= t < |s.timers| && s.timers[t].call == c && HoldsRef(s.timers[t].phase)
  }

  /** How often call `c` occurs among handles given to the scheduler. */
  function Occurs(handed: seq<Handed>, c: nat): nat {
    if handed == [] then 0
    else Occurs(handed[..|handed| - 1], c) + if handed[|handed| - 1].handle == FiberHandle(c) then 1 else 0
  }

  /** The scheduler received these handles; each occurrence resumes its call once. */
  function Wake(calls: seq<Call>, handed: seq<Handed>): (r: seq<Call>)
    ensures |r| == |calls|
  {
    seq(|calls|, c requires 0 <= c < |calls| =>
      var n := Occurs(handed, c);
      if n == 0 then calls[c] else calls[c].(pc := Runnable, resumes := calls[c].resumes + n))
  }

  function TableStep(s: State, t': Table): State {
    State(t', Wake(s.calls, if |t'.log| >= |s.table.log| then t'.log[|s.table.log|..] else []), s.timers)
  }

  function WithdrawTimer(s: State, c: nat): State
    requires c < |s.calls|
  {
    var t := s.calls[c].timer;
    if t.Some? && t.value < |s.timers| && s.timers[t.value].phase == Pending
    then s.(timers := s.timers[t.value := s.timers[t.value].(phase := Withdrawn)])
    else s
  }

  function SetCall(s: State, c: nat, call: Call): State
    requires c < |s.calls|
  {
    s.(calls := s.calls[c := call])
  }

  function SetPhase(s: State, t: nat, p: Phase): State
    requires t < |s.timers|
  {
    s.(timers := s.timers[t := s.timers[t].(phase := p)])
  }

  predicate TimerAt(s: State, t: nat, p: Phase) { t < |s.timers| && s.timers[t].phase == p }
  predicate CallAt(s: State, c: nat, pc: Pc) { c < |s.calls| && s.calls[c].pc == pc }

  /** The event-table operation an action performs, if any. */
  function TableOp(s: State, a: Action): (Table, Outcome)
  {
    match a
    case Register(c, ok) =>
      if c < |s.calls| then AddEvent(s.table, s.calls[c].fd, s.calls[c].event, 0, FiberHandle(c), ok)
      else (s.table, Refused)
    case Ready(fd, reported, errHup, ok) => Deliver(s.table, fd, reported, errHup, ok)
    case Close(fd, ok) => CancelAll(s.table, fd, ok)
    case CancelFrom(fd, event, ok) => CancelEvent(s.table, fd, event, ok)
    case CbCancel(t, ok) =>
      if t < |s.timers| && s.timers[t].call < |s.calls|
      then CancelEvent(s.table, s.calls[s.timers[t].call].fd, s.calls[s.timers[t].call].event, ok)
      else (s.table, Refused)
    case _ => (s.table, Refused)
  }

  predicate Enabled(s: State, a: Action) {
    && TableOp(s, a).1 != Aborted
    && match a
       case Attempt(c, _) => CallAt(s, c, Trying)
       case Register(c, _) => CallAt(s, c, Armed)
       case Expire(t) => TimerAt(s, t, Pending)
       case CbLock(t) => TimerAt(s, t, HandedOut)
       case CbCheck(t) => TimerAt(s, t, Locked) && s.timers[t].call < |s.calls|
       case CbFlag(t) => TimerAt(s, t, Checked) && s.timers[t].call < |s.calls|
       case CbCancel(t, _) => TimerAt(s, t, Flagged)
       case Resume(c) => CallAt(s, c, Runnable)
       case _ => true
  }

  function DoAttempt(s: State, c: nat, again: bool): State
    requires c < |s.calls|
  {
    var call := s.calls[c];
    if !again then SetCall(s, c, call.(pc := Returned(false)))
    else if call.hasTimeout then
      SetCall(s, c, call.(pc := Armed, timer := Some(|s.timers|))).(timers := s.timers + [Timeout(c, Pending)])
    else SetCall(s, c, call.(pc := Armed, timer := None))
  }

  /** What the call does with addEvent's answer. */
  function AfterAdd(s: State, c: nat, t': Table, out: Outcome): State
    requires c < |s.calls|
  {
    var s1 := s.(table := t');
    if out == Done then SetCall(s1, c, s.calls[c].(pc := Waiting, waits := s.calls[c].waits + 1))
    else WithdrawTimer(SetCall(s1, c, s.calls[c].(pc := Returned(false))), c)
  }

  function DoRegister(s: State, c: nat, ok: bool): State
    requires c < |s.calls|
  {
    AfterAdd(s, c, TableOp(s, Register(c, ok)).0, TableOp(s, Register(c, ok)).1)
  }

  /** After YieldToHold returns: withdraw the timer, then report the timeout or go on. */
  function DoResume(s: State, c: nat): State
    requires c < |s.calls|
  {
    var call := s.calls[c];
    var pc := if call.cancelled then Returned(true) else if call.kind == DoIo then Trying else Returned(false);
    WithdrawTimer(SetCall(s, c, call.(pc := pc)), c)
  }

  function Apply(s: State, a: Action): State
    requires Enabled(s, a)
  {
    match a
    case Begin(kind, fd, event, hasTimeout) =>
      s.(calls := s.calls + [Call(kind, fd, event, hasTimeout, Trying, false, None, 0, 0)])
    case Attempt(c, again) => DoAttempt(s, c, again)
    case Register(c, ok) => DoRegister(s, c, ok)
    case Expire(t) => SetPhase(s, t, HandedOut)
    case CbLock(t) => SetPhase(s, t, if Alive(s, s.timers[t].call) then Locked else Finished(false))
    case CbCheck(t) => SetPhase(s, t, if s.calls[s.timers[t].call].cancelled then Finished(false) else Checked)
    case CbFlag(t) =>
      var c := s.timers[t].call;
      SetPhase(SetCall(s, c, s.calls[c].(cancelled := true)), t, Flagged)
    case CbCancel(t, _) => SetPhase(TableStep(s, TableOp(s, a).0), t, Finished(true))
    case Resume(c) => DoResume(s, c)
    case _ => TableStep(s, TableOp(s, a).0)
  }

  ghost predicate RunFrom(s: State, states: seq<State>, acts: seq<Action>) {
    && |states| == |acts| + 1 && states[0] == s
    && forall i :: 0 <= i < |acts| ==> Enabled(states[i], acts[i]) && states[i + 1] == Apply(states[i], acts[i])
  }

  // ---------------------------------------------------------------- what a table operation hands over

  /** The handles in the slots of `bits`, READ first. */
  function HandedBy(c: FdContext, bits: set<Event>): seq<Handed> {
    (if READ in bits && CanTrigger(c, READ) then [TriggerContext(c, READ).1] else []) +
    (if WRITE in bits && CanTrigger(c, WRITE) then [TriggerContext(c, WRITE).1] else [])
  }

  ghost predicate HandsOver(t: Table, t': Table, fd: nat, bits: set<Event>) {
    && fd < |t.slots| == |t'.slots| && bits <= t.slots[fd].events && SlotOk(t.slots[fd])
    && t'.slots == t.slots[fd := t'.slots[fd]] && t'.slots[fd].events == t.slots[fd].events - bits
    && (forall e :: e !in bits ==> Context(t'.slots[fd], e) == Context(t.slots[fd], e))
    && t'.log == t.log + HandedBy(t.slots[fd], bits)
  }

  lemma TriggersHandOver(t: Table, t': Table, fd: nat, bits: set<Event>, kernel: map<nat, set<Event>>)
    requires fd < |t.slots| && SlotOk(t.slots[fd]) && bits <= t.slots[fd].events
    requires var t1 := TriggerIf(READ in bits, t.(kernel := kernel), fd, READ);
             t1.Some? && TriggerIf(WRITE in bits, t1.value, fd, WRITE) == Some(t')
    ensures HandsOver(t, t', fd, bits)
  {
    var t0 := t.(kernel := kernel);
    TriggerTwo(t0, fd, bits);
    TriggersHand(t0, t', fd, bits);
  }

  /** Which contexts stay, and what the log gains. */
  lemma TriggersHand(t: Table, t': Table, fd: nat, bits: set<Event>)
    requires fd < |t.slots| && SlotOk(t.slots[fd]) && bits <= t.slots[fd].events
    requires var t1 := TriggerIf(READ in bits, t, fd, READ);
             t1.Some? && TriggerIf(WRITE in bits, t1.value, fd, WRITE) == Some(t')
    ensures fd < |t'.slots| && forall e :: e !in bits ==> Context(t'.slots[fd], e) == Context(t.slots[fd], e)
    ensures t'.log == t.log + HandedBy(t.slots[fd], bits)
  {
    if READ in bits {
      TriggerOk(t, fd, READ);
      TriggerEffect(t, fd, READ);
    }
    var t1 := TriggerIf(READ in bits, t, fd, READ).value;
    if WRITE in bits { TriggerEffect(t1, fd, WRITE); }
    forall e | e !in bits ensures Context(t'.slots[fd], e) == Context(t.slots[fd], e) {
      match e case READ => case WRITE =>
    }
  }

  /** A trigger appends the handle of its bit and leaves the other context alone. */
  lemma TriggerEffect(t: Table, fd: nat, e: Event)
    requires fd < |t.slots| && SlotOk(t.slots[fd]) && e in t.slots[fd].events
    ensures CanTrigger(t.slots[fd], e) && Trigger(t, fd, e).log == t.log + [TriggerContext(t.slots[fd], e).1]
    ensures forall x :: x != e ==> Context(Trigger(t, fd, e).slots[fd], x) == Context(t.slots[fd], x)
  {}

  /** Delivery, close and cancel: a refused one changes nothing, a successful one hands bits over. */
  lemma OpHandsOver(s: State, a: Action) returns (fd: nat, bits: set<Event>)
    requires TableOk(s.table) && (a.Ready? || a.Close? || a.CancelFrom? || a.CbCancel?) && TableOp(s, a).1 != Aborted
    ensures TableOk(TableOp(s, a).0)
    ensures TableOp(s, a).1 == Refused ==> TableOp(s, a).0 == s.table
    ensures TableOp(s, a).1 == Done ==> HandsOver(s.table, TableOp(s, a).0, fd, bits)
  {
    fd, bits := 0, {};
    match a {
      case Ready(d, reported, errHup, ok) => fd, bits := DeliverHandsOver(s.table, d, reported, errHup, ok);
      case Close(d, ok) => fd, bits := CloseHandsOver(s.table, d, ok);
      case CancelFrom(d, e, ok) => fd, bits := CancelHandsOver(s.table, d, e, ok);
      case CbCancel(i, ok) =>
        if i < |s.timers| && s.timers[i].call < |s.calls| {
          var call := s.calls[s.timers[i].call];
          fd, bits := CancelHandsOver(s.table, call.fd, call.event, ok);
        }
    }
  }

  lemma DeliverHandsOver(t: Table, d: nat, reported: set<Event>, errHup: bool, ok: bool)
    returns (fd: nat, bits: set<Event>)
    requires TableOk(t) && Deliver(t, d, reported, errHup, ok).1 != Aborted
    ensures var (t', out) := Deliver(t, d, reported, errHup, ok);
            TableOk(t') && (out == Refused ==> t' == t) && (out == Done ==> HandsOver(t, t', fd, bits))
  {
    fd, bits := d, {};
    DeliverOk(t, d, reported, errHup, ok);
    var (t', out) := Deliver(t, d, reported, errHup, ok);
    if out == Done {
      DeliverAccepted(t, d, reported, errHup);
      bits := RealEvents(t.slots[d], reported, errHup);
      TriggersHandOver(t, t', d, bits, t'.kernel);
    }
  }

  lemma CloseHandsOver(t: Table, d: nat, ok: bool) returns (fd: nat, bits: set<Event>)
    requires TableOk(t)
    ensures var (t', out) := CancelAll(t, d, ok);
            TableOk(t') && out != Aborted && (out == Refused ==> t' == t)
            && (out == Done ==> HandsOver(t, t', fd, bits))
  {
    fd, bits := d, {};
    CancelAllOk(t, d, ok);
    var (t', out) := CancelAll(t, d, ok);
    if out == Done {
      bits := t.slots[d].events;
      TriggerTwo(t.(kernel := t'.kernel), d, bits);
      TriggersHandOver(t, t', d, bits, t'.kernel);
    }
  }

  lemma CancelHandsOver(t: Table, d: nat, e: Event, ok: bool) returns (fd: nat, bits: set<Event>)
    requires TableOk(t)
    ensures var (t', out) := CancelEvent(t, d, e, ok);
            && TableOk(t') && out != Aborted && (out == Refused ==> t' == t)
            && (out == Done ==> fd == d && bits == {e} && HandsOver(t, t', d, {e}))
  {
    fd, bits := d, {e};
    CancelOk(t, d, e, ok);
    var (t', out) := CancelEvent(t, d, e, ok);
    if out == Done {
      TriggerOk(t.(kernel := t'.kernel), d, e);
      match e case READ => case WRITE =>
      TriggersHandOver(t, t', d, {e}, t'.kernel);
    }
  }
}
