/**
 * The blocking calls on the event table as it really is: `addEvent`, `cancelEvent`, `cancelAll` and the
 * delivery of a report look their context up in one step and use it in a later one, and a growth in
 * between may cut it off the vector. Each wait is still resumed once.
 */
module HookRace {
  import opened Common
  import opened EventTable
  import opened EventAttached
  import opened EventDelivery
  import E = EventRace
  import R = EventRuns
  import H = HookWait
  import HR = HookRuns
  import HL = HookLate

  /** Who makes an operation: the addEvent of a call, the cancelEvent of a timeout, or anybody else. */
  datatype Purpose = Park(c: nat) | Timeout(t: nat) | Free

  /** `purpose[k]` belongs to operation `k` of the event table. */
  datatype State = State(race: E.State, calls: seq<H.Call>, timers: seq<H.Timeout>, purpose: seq<Purpose>)

  datatype Action =
    | Own(a: H.Action)            // a step of a call or a timeout that leaves the table alone
    | StartAdd(c: nat)
    | StartCancel(t: nat)
    | StartOther(op: R.Action)    // a report, a close, a cancel from elsewhere
    | Lookup(k: nat)
    | Grow(k: nat)
    | Commit(k: nat, ok: bool)

  predicate IsLocal(a: H.Action) {
    a.Begin? || a.Attempt? || a.Resume? || a.Expire? || a.CbLock? || a.CbCheck? || a.CbFlag?
  }

  /** The calls and timeouts by themselves. */
  function Bare(j: State): H.State { H.State(InitTable(), j.calls, j.timers) }

  function Hooked(j: State, s: H.State): State { j.(calls := s.calls, timers := s.timers) }

  /** An operation that has not ended is under way for this purpose. */
  predicate UnderWay(j: State, k: nat, p: Purpose) {
    k < |j.purpose| && k < |j.race.calls| && j.purpose[k] == p && !j.race.calls[k].pc.Ended?
  }

  /** Program order: a call or callback makes one operation at a time. */
  ghost predicate Enabled(j: State, x: Action) {
    match x
    case Own(a) => IsLocal(a) && H.Enabled(Bare(j), a)
    case StartAdd(c) => H.CallAt(Bare(j), c, H.Armed) && forall k: nat :: !UnderWay(j, k, Park(c))
    case StartCancel(t) =>
      && H.TimerAt(Bare(j), t, H.Flagged) && j.timers[t].call < |j.calls|
      && forall k: nat :: !UnderWay(j, k, Timeout(t))
    case StartOther(op) => !op.Add? && !op.Del?
    case Lookup(k) => E.Enabled(j.race, E.Lookup(k))
    case Grow(k) => E.Enabled(j.race, E.Grow(k))
    case Commit(k, ok) => E.Enabled(j.race, E.Commit(k, ok))
  }

  function AddOf(calls: seq<H.Call>, c: nat): R.Action
    requires c < |calls|
  {
    R.Add(calls[c].fd, calls[c].event, 0, FiberHandle(c), false)
  }

  function CancelOf(calls: seq<H.Call>, timers: seq<H.Timeout>, t: nat): R.Action
    requires t < |timers| && timers[t].call < |calls|
  {
    R.Cancel(calls[timers[t].call].fd, calls[timers[t].call].event, false)
  }

  function Started(j: State, op: R.Action, p: Purpose): State {
    j.(race := E.Apply(j.race, E.Begin(op)), purpose := j.purpose + [p])
  }

  /** What the log has gained. */
  function Gained(r: E.State, r': E.State): seq<Handed> {
    if |r'.log| >= |r.log| then r'.log[|r.log|..] else []
  }

  /** Operation `k` took a step to `r'`; when that ended it, whoever made it goes on. */
  function Went(j: State, k: nat, r': E.State): State {
    var j' := j.(race := r');
    if k >= |r'.calls| || k >= |j.purpose| || !r'.calls[k].pc.Ended? then j'
    else match j.purpose[k]
    case Park(c) =>
      if c < |j.calls| then Hooked(j', H.AfterAdd(Bare(j), c, InitTable(), r'.calls[k].pc.out)) else j'
    case Timeout(t) =>
      var s := H.State(InitTable(), H.Wake(j.calls, Gained(j.race, r')), j.timers);
      Hooked(j', if t < |j.timers| then H.SetPhase(s, t, H.Finished(true)) else s)
    case Free => j'.(calls := H.Wake(j.calls, Gained(j.race, r')))
  }

  ghost function Apply(j: State, x: Action): State
    requires Enabled(j, x)
  {
    match x
    case Own(a) => Hooked(j, H.Apply(Bare(j), a))
    case StartAdd(c) => Started(j, AddOf(j.calls, c), Park(c))
    case StartCancel(t) => Started(j, CancelOf(j.calls, j.timers, t), Timeout(t))
    case StartOther(op) => Started(j, op, Free)
    case Lookup(k) => Went(j, k, E.Apply(j.race, E.Lookup(k)))
    case Grow(k) => Went(j, k, E.Apply(j.race, E.Grow(k)))
    case Commit(k, ok) => Went(j, k, E.Apply(j.race, E.Commit(k, ok)))
  }

  // ---------------------------------------------------------------- the invariant

  /** The same calls on the table of the attached contexts. */
  function Shown(j: State): H.State
    requires PtrsOk(j.race)
  {
    H.State(Attached(j.race), j.calls, j.timers)
  }

  ghost predicate OpOk(calls: seq<H.Call>, timers: seq<H.Timeout>, call: E.Call, p: Purpose) {
    match p
    case Park(c) => c < |calls| && E.WithOk(call.op, false) == AddOf(calls, c)
                    && (!call.pc.Ended? ==> calls[c].pc == H.Armed)
    case Timeout(t) => t < |timers| && timers[t].call < |calls|
                       && E.WithOk(call.op, false) == CancelOf(calls, timers, t)
                       && (!call.pc.Ended? ==> timers[t].phase == H.Flagged)
    case Free => !call.op.Add? && !call.op.Del?
  }

  ghost predicate OpsOk(j: State) {
    && |j.purpose| == |j.race.calls|
    && (forall k :: 0 <= k < |j.purpose| ==> OpOk(j.calls, j.timers, j.race.calls[k], j.purpose[k]))
    && (forall k: nat, l: nat, p :: p != Free && UnderWay(j, k, p) && UnderWay(j, l, p) ==> k == l)
  }

  ghost predicate Inv(j: State) {
    KernelOk(j.race) && HR.Inv(Shown(j)) && OpsOk(j)
  }

  // ---------------------------------------------------------------- operations under way

  /** Calls keep their descriptor and event; one that is armed and a timeout that is flagged stay so, but for `p`. */
  ghost predicate Undisturbed(calls: seq<H.Call>, timers: seq<H.Timeout>, calls': seq<H.Call>, timers': seq<H.Timeout>,
                              p: Purpose) {
    && |calls| <= |calls'| && |timers| <= |timers'|
    && (forall t :: 0 <= t < |timers| ==> timers'[t].call == timers[t].call)
    && (forall c :: 0 <= c < |calls| ==> calls'[c].fd == calls[c].fd && calls'[c].event == calls[c].event)
    && (forall c :: 0 <= c < |calls| && calls[c].pc == H.Armed && p != Park(c) ==> calls'[c].pc == H.Armed)
    && (forall t :: 0 <= t < |timers| && timers[t].phase == H.Flagged && p != Timeout(t) ==>
          timers'[t].phase == H.Flagged)
  }

  /** Operation `k` moved; if anything of the calls was disturbed, it was its maker's, and it has ended. */
  lemma OpsMoved(j: State, j': State, k: nat, p: Purpose)
    requires OpsOk(j) && j'.purpose == j.purpose && |j'.race.calls| == |j.race.calls|
    requires forall l :: 0 <= l < |j.race.calls| && l != k ==> j'.race.calls[l] == j.race.calls[l]
    requires k < |j.race.calls| ==>
               && j'.race.calls[k].op == j.race.calls[k].op
               && (j.race.calls[k].pc.Ended? ==> j'.race.calls[k].pc.Ended?)
    requires p == Free || (UnderWay(j, k, p) && j'.race.calls[k].pc.Ended?)
    requires Undisturbed(j.calls, j.timers, j'.calls, j'.timers, p)
    ensures OpsOk(j')
  {
    forall l | 0 <= l < |j'.purpose| ensures OpOk(j'.calls, j'.timers, j'.race.calls[l], j'.purpose[l]) {
      assert OpOk(j.calls, j.timers, j.race.calls[l], j.purpose[l]);
      if p != Free && l != k && !j.race.calls[l].pc.Ended? && j.purpose[l] == p {
        assert UnderWay(j, l, p);
      }
    }
    forall l: nat, m: nat, q | q != Free && UnderWay(j', l, q) && UnderWay(j', m, q) ensures l == m {
      assert UnderWay(j, l, q) && UnderWay(j, m, q);
    }
  }

  lemma OthersOp(j: State, k: nat, ok: bool)
    requires OpsOk(j) && k < |j.purpose| && !j.purpose[k].Park?
    ensures !E.WithOk(j.race.calls[k].op, ok).Add? && !E.WithOk(j.race.calls[k].op, ok).Del?
  {
    assert OpOk(j.calls, j.timers, j.race.calls[k], j.purpose[k]);
  }

  lemma MakerArmed(j: State, k: nat)
    requires OpsOk(j) && k < |j.purpose| && j.purpose[k].Park? && !j.race.calls[k].pc.Ended?
    ensures j.purpose[k].c < |j.calls| && j.calls[j.purpose[k].c].pc == H.Armed
  {
    assert OpOk(j.calls, j.timers, j.race.calls[k], j.purpose[k]);
  }

  lemma OpsStarted(j: State, op: R.Action, p: Purpose)
    requires OpsOk(j) && OpOk(j.calls, j.timers, E.Call(op, E.Begun), p)
    requires p != Free ==> forall k: nat :: !UnderWay(j, k, p)
    ensures OpsOk(Started(j, op, p))
  {
    var j' := Started(j, op, p);
    forall k: nat, q | UnderWay(j', k, q) && k < |j.purpose| ensures UnderWay(j, k, q) {}
    forall k | 0 <= k < |j'.purpose| ensures OpOk(j'.calls, j'.timers, j'.race.calls[k], j'.purpose[k]) {
      if k < |j.purpose| { assert OpOk(j.calls, j.timers, j.race.calls[k], j.purpose[k]); }
    }
  }

  // ---------------------------------------------------------------- steps of the calls themselves

  /** Such a step does not look at the table. */
  lemma TableFree(s: H.State, t: Table, a: H.Action)
    requires IsLocal(a) && H.Enabled(s, a)
    ensures H.Enabled(s.(table := t), a) && H.Apply(s.(table := t), a) == H.Apply(s, a).(table := t)
  {
    match a case _ =>
  }

  lemma OwnUndisturbed(s: H.State, a: H.Action)
    requires IsLocal(a) && H.Enabled(s, a)
    ensures Undisturbed(s.calls, s.timers, H.Apply(s, a).calls, H.Apply(s, a).timers, Free)
  {
    match a case _ =>
  }

  lemma OwnKeeps(j: State, a: H.Action)
    requires Inv(j) && Enabled(j, Own(a))
    ensures Inv(Apply(j, Own(a)))
  {
    var j' := Apply(j, Own(a));
    TableFree(Bare(j), Attached(j.race), a);
    HR.InvStep(Shown(j), a);
    assert Shown(j') == H.Apply(Shown(j), a);
    OwnUndisturbed(Bare(j), a);
    OpsMoved(j, j', |j.race.calls|, Free);
  }

  // ---------------------------------------------------------------- lookups and growths

  lemma StartKeeps(j: State, op: R.Action, p: Purpose)
    requires Inv(j) && OpOk(j.calls, j.timers, E.Call(op, E.Begun), p)
    requires p != Free ==> forall k: nat :: !UnderWay(j, k, p)
    ensures Inv(Started(j, op, p))
  {
    QuietKept(j.race, E.Begin(op), |j.race.calls|);
    OpsStarted(j, op, p);
  }

  lemma NobodyWoken(calls: seq<H.Call>)
    ensures H.Wake(calls, []) == calls
  {}

  /** A lookup ends an operation only by refusing it, and never an addEvent. */
  lemma LookupKeeps(j: State, k: nat)
    requires Inv(j) && Enabled(j, Lookup(k))
    ensures Inv(Apply(j, Lookup(k))) && Apply(j, Lookup(k)).calls == j.calls
  {
    var r' := E.Apply(j.race, E.Lookup(k));
    var j' := Went(j, k, r');
    QuietKept(j.race, E.Lookup(k), k);
    assert OpOk(j.calls, j.timers, j.race.calls[k], j.purpose[k]);
    assert Gained(j.race, r') == [];
    NobodyWoken(j.calls);
    if r'.calls[k].pc.Ended? && j.purpose[k].Timeout? {
      TimeoutRefused(j, k, r');
    } else {
      OpsMoved(j, j', k, Free);
    }
  }

  lemma TimeoutRefused(j: State, k: nat, r': E.State)
    requires PtrsOk(j.race) && KernelOk(r') && Attached(r') == Attached(j.race) && HR.Inv(Shown(j))
    requires OpsOk(j) && k < |j.purpose| && j.purpose[k].Timeout? && UnderWay(j, k, j.purpose[k])
    requires r'.calls == j.race.calls[k := E.Call(j.race.calls[k].op, E.Ended(Refused))]
    ensures Inv(Went(j, k, r')) && Went(j, k, r').calls == j.calls
  {
    var j', t := Went(j, k, r'), j.purpose[k].t;
    assert OpOk(j.calls, j.timers, j.race.calls[k], j.purpose[k]);
    assert Gained(j.race, r') == [];
    NobodyWoken(j.calls);
    HR.TimersFrame(j.calls, j.timers, j'.timers);
    OpsMoved(j, j', k, j.purpose[k]);
  }

  lemma GrowKeeps(j: State, k: nat)
    requires Inv(j) && Enabled(j, Grow(k))
    ensures Inv(Apply(j, Grow(k))) && Apply(j, Grow(k)).calls == j.calls
  {
    var r' := E.Apply(j.race, E.Grow(k));
    GrowKept(j.race, k);
    MoreShown(Shown(j), Attached(r'), |r'.objects|);
    OpsMoved(j, j.(race := r'), k, Free);
  }

  lemma MoreShown(s: H.State, t': Table, size: nat)
    requires HR.Inv(s) && TableOk(t') && size >= |s.table.slots| && t'.slots == Resize(s.table.slots, size)
    ensures HR.Inv(s.(table := t'))
  {
    HR.MoreSlots(s.table.slots, t'.slots, s.calls);
  }

  // ---------------------------------------------------------------- critical sections

  /** What a step did to one call: nothing, or it resumed it while it waited. */
  predicate AtMostResumed(call: H.Call, call': H.Call) {
    call' == call || (call.pc == H.Waiting && call' == HR.Woken(call))
  }

  /** The addEvent of call `c` was answered. */
  lemma AddAnswered(s: H.State, c: nat, ok: bool, t': Table, out: Outcome)
    requires HR.Inv(s) && c < |s.calls| && s.calls[c].pc == H.Armed && out != Aborted
    requires out == Done ==> AddEvent(s.table, s.calls[c].fd, s.calls[c].event, 0, FiberHandle(c), ok) == (t', Done)
    requires out == Refused ==> t' == s.table
    ensures HR.Inv(H.AfterAdd(s, c, t', out))
  {
    if out == Done { AddRegistered(s, c, ok, t'); } else { HR.AfterAddKeeps(s, c, t', out); }
  }

  lemma AddRegistered(s: H.State, c: nat, ok: bool, t': Table)
    requires HR.Inv(s) && c < |s.calls| && s.calls[c].pc == H.Armed
    requires AddEvent(s.table, s.calls[c].fd, s.calls[c].event, 0, FiberHandle(c), ok) == (t', Done)
    ensures HR.Inv(H.AfterAdd(s, c, t', Done))
  {
    assert H.TableOp(s, H.Register(c, ok)) == (t', Done);
    HR.RegisterKeeps(s, c, ok);
  }

  /** The answer is taken the same way on any table, and moves that call and its timer only. */
  lemma AnswerUndisturbed(s: H.State, s': H.State, t: Table, t': Table, c: nat, out: Outcome)
    requires c < |s.calls| && s.calls[c].pc == H.Armed && s'.calls == s.calls && s'.timers == s.timers
    ensures var u, v := H.AfterAdd(s, c, t, out), H.AfterAdd(s', c, t', out);
            && v == u.(table := t') && Undisturbed(s.calls, s.timers, u.calls, u.timers, Park(c))
            && |u.calls| == |s.calls| && (forall d :: 0 <= d < |s.calls| && d != c ==> u.calls[d] == s.calls[d])
            && u.calls[c].resumes == s.calls[c].resumes && (u.calls[c].pc == H.Waiting <==> out == Done)
  {}

  function AsHook(op: R.Action): H.Action
    requires !op.Add? && !op.Del?
  {
    match op
    case Cancel(fd, e, ok) => H.CancelFrom(fd, e, ok)
    case CancelBoth(fd, ok) => H.Close(fd, ok)
    case Report(fd, reported, errHup, ok) => H.Ready(fd, reported, errHup, ok)
  }

  /** A report, close or cancel was carried out or refused. */
  lemma OthersAnswered(s: H.State, op: R.Action, t': Table, out: Outcome)
    requires HR.Inv(s) && !op.Add? && !op.Del? && out != Aborted
    requires out == Done ==> R.Result(s.table, op) == (t', Done)
    requires out == Refused ==> t' == s.table
    ensures HR.Inv(H.TableStep(s, t'))
    ensures forall c :: 0 <= c < |s.calls| ==> AtMostResumed(s.calls[c], H.TableStep(s, t').calls[c])
  {
    if out == Done {
      SameOp(s, op);
      HandedOver(s, AsHook(op));
    } else {
      HR.QuietTableStep(s);
    }
  }

  lemma SameOp(s: H.State, op: R.Action)
    requires !op.Add? && !op.Del?
    ensures H.TableOp(s, AsHook(op)) == R.Result(s.table, op)
  {}

  lemma HandedOver(s: H.State, a: H.Action)
    requires HR.Inv(s) && (a.Ready? || a.Close? || a.CancelFrom?) && H.TableOp(s, a).1 == Done
    ensures HR.Inv(H.TableStep(s, H.TableOp(s, a).0))
    ensures forall c :: 0 <= c < |s.calls| ==> AtMostResumed(s.calls[c], H.TableStep(s, H.TableOp(s, a).0).calls[c])
  {
    HR.TableOpKeeps(s, a);
    var fd, bits := H.OpHandsOver(s, a);
    HR.TableStepWakes(s, fd, bits, H.TableOp(s, a).0);
  }

  /** Operation `k` was under way in `j` and has ended in `r'` with this outcome. */
  ghost predicate Ends(j: State, k: nat, r': E.State, out: Outcome) {
    && k < |j.purpose| && UnderWay(j, k, j.purpose[k]) && KernelOk(r')
    && r'.calls == j.race.calls[k := E.Call(j.race.calls[k].op, E.Ended(out))]
  }

  /** It ended as the operation `op` on the attached contexts, or refused and without effect. */
  ghost predicate Answered(j: State, k: nat, r': E.State, op: R.Action, out: Outcome)
    requires PtrsOk(j.race)
  {
    && Ends(j, k, r', out) && out != Aborted
    && (out == Refused ==> Attached(r') == Attached(j.race))
    && (out == Done ==> R.Result(Attached(j.race), op) == (Attached(r'), Done))
  }

  lemma CommitEnds(j: State, k: nat, ok: bool)
    requires Inv(j) && Enabled(j, Commit(k, ok))
    ensures Apply(j, Commit(k, ok)) == Went(j, k, E.Apply(j.race, E.Commit(k, ok)))
    ensures var op := j.race.calls[k].op;
            Answered(j, k, E.Apply(j.race, E.Commit(k, ok)), E.WithOk(op, ok),
                     E.Section(j.race, op, j.race.calls[k].pc.ctx, ok).1)
  {
    CommitKept(j.race, k, ok);
  }

  lemma AddEnded(j: State, k: nat, r': E.State, out: Outcome, c: nat)
    requires PtrsOk(j.race) && OpsOk(j) && Ends(j, k, r', out) && j.purpose[k] == Park(c)
    requires c < |j.calls| && j.calls[c].pc == H.Armed && HR.Inv(H.AfterAdd(Shown(j), c, Attached(r'), out))
    ensures Inv(Went(j, k, r')) && |Went(j, k, r').calls| >= |j.calls|
    ensures forall d :: 0 <= d < |j.calls| ==> Went(j, k, r').calls[d].resumes == j.calls[d].resumes
  {
    AddWent(j, k, r', out, c);
    OpsMoved(j, Went(j, k, r'), k, Park(c));
  }

  lemma AddWent(j: State, k: nat, r': E.State, out: Outcome, c: nat)
    requires PtrsOk(j.race) && PtrsOk(r') && k < |j.purpose| && j.purpose[k] == Park(c)
    requires k < |r'.calls| && r'.calls[k].pc == E.Ended(out) && c < |j.calls| && j.calls[c].pc == H.Armed
    ensures var j' := Went(j, k, r');
            && j'.race == r' && j'.purpose == j.purpose && Shown(j') == H.AfterAdd(Shown(j), c, Attached(r'), out)
            && Undisturbed(j.calls, j.timers, j'.calls, j'.timers, Park(c))
            && |j'.calls| == |j.calls| && (forall d :: 0 <= d < |j.calls| && d != c ==> j'.calls[d] == j.calls[d])
            && j'.calls[c].resumes == j.calls[c].resumes && (j'.calls[c].pc == H.Waiting <==> out == Done)
  {
    AnswerUndisturbed(Bare(j), Shown(j), InitTable(), Attached(r'), c, out);
  }

  lemma OtherEnded(j: State, k: nat, r': E.State, out: Outcome)
    requires PtrsOk(j.race) && OpsOk(j) && Ends(j, k, r', out) && !j.purpose[k].Park?
    requires HR.Inv(H.TableStep(Shown(j), Attached(r')))
    requires forall c :: 0 <= c < |j.calls| ==>
               AtMostResumed(j.calls[c], H.TableStep(Shown(j), Attached(r')).calls[c])
    ensures Inv(Went(j, k, r')) && Went(j, k, r').calls == H.TableStep(Shown(j), Attached(r')).calls
  {
    var j' := Went(j, k, r');
    assert OpOk(j.calls, j.timers, j.race.calls[k], j.purpose[k]);
    if j.purpose[k].Timeout? { HR.TimersFrame(j'.calls, j.timers, j'.timers); }
    WokenUndisturbed(j.calls, j.timers, j'.calls, j'.timers, j.purpose[k]);
    OpsMoved(j, j', k, j.purpose[k]);
  }

  lemma WokenUndisturbed(calls: seq<H.Call>, timers: seq<H.Timeout>, calls': seq<H.Call>, timers': seq<H.Timeout>,
                         p: Purpose)
    requires |calls'| == |calls| && forall c :: 0 <= c < |calls| ==> AtMostResumed(calls[c], calls'[c])
    requires |timers'| == |timers| && forall t :: 0 <= t < |timers| && p != Timeout(t) ==> timers'[t] == timers[t]
    requires forall t :: 0 <= t < |timers| ==> timers'[t].call == timers[t].call
    ensures Undisturbed(calls, timers, calls', timers', p)
  {}

  /** A section answers the call that made it, or wakes waiting calls. */
  lemma CommitKeeps(j: State, k: nat, ok: bool)
    requires Inv(j) && Enabled(j, Commit(k, ok))
    ensures Inv(Apply(j, Commit(k, ok))) && |Apply(j, Commit(k, ok)).calls| >= |j.calls|
    ensures forall c :: 0 <= c < |j.calls| ==>
              || Apply(j, Commit(k, ok)).calls[c].resumes == j.calls[c].resumes
              || (j.calls[c].pc == H.Waiting && Apply(j, Commit(k, ok)).calls[c] == HR.Woken(j.calls[c]))
  {
    var r', op := E.Apply(j.race, E.Commit(k, ok)), j.race.calls[k].op;
    var out := E.Section(j.race, op, j.race.calls[k].pc.ctx, ok).1;
    CommitEnds(j, k, ok);
    assert OpOk(j.calls, j.timers, j.race.calls[k], j.purpose[k]);
    if j.purpose[k].Park? {
      AddAnswered(Shown(j), j.purpose[k].c, ok, Attached(r'), out);
      AddEnded(j, k, r', out, j.purpose[k].c);
    } else {
      OthersAnswered(Shown(j), E.WithOk(op, ok), Attached(r'), out);
      OtherEnded(j, k, r', out);
    }
  }

  // ---------------------------------------------------------------- every run

  lemma InvStep(j: State, x: Action)
    requires Inv(j) && Enabled(j, x)
    ensures Inv(Apply(j, x))
  {
    match x
    case Own(a) => OwnKeeps(j, a);
    case StartAdd(c) => StartKeeps(j, AddOf(j.calls, c), Park(c));
    case StartCancel(t) => StartKeeps(j, CancelOf(j.calls, j.timers, t), Timeout(t));
    case StartOther(op) => StartKeeps(j, op, Free);
    case Lookup(k) => LookupKeeps(j, k);
    case Grow(k) => GrowKeeps(j, k);
    case Commit(k, ok) => CommitKeeps(j, k, ok);
  }

  function Init(): State { State(E.Init(), [], [], []) }

  ghost predicate IsStep(j: State, x: Action, j': State) { Enabled(j, x) && j' == Apply(j, x) }

  ghost predicate IsRun(states: seq<State>, acts: seq<Action>) {
    && |states| == |acts| + 1 && states[0] == Init()
    && forall i :: 0 <= i < |acts| ==> IsStep(states[i], acts[i], states[i + 1])
  }

  lemma InitInv()
    ensures Inv(Init())
  {
    InitKernel();
    HL.InitInv();
    assert Shown(Init()) == H.Init();
  }

  lemma InvNext(states: seq<State>, acts: seq<Action>, i: nat)
    requires IsRun(states, acts) && 0 < i < |states| && Inv(states[i - 1])
    ensures Inv(states[i])
  {
    var k := i - 1;
    assert IsStep(states[k], acts[k], states[k + 1]);
    InvStep(states[k], acts[k]);
  }

  lemma {:induction false} RunInv(states: seq<State>, acts: seq<Action>, i: nat)
    requires IsRun(states, acts) && i < |states|
    ensures Inv(states[i])
  {
    if i == 0 {
      InitInv();
    } else {
      RunInv(states, acts, i - 1);
      InvNext(states, acts, i);
    }
  }

  /** The context that the kernel's entry names holds the fiber of call `c`. */
  predicate ParkedAt(s: E.State, fd: nat, e: Event, c: nat) {
    && fd in s.ptr && s.ptr[fd] < |s.objects| && s.objects[s.ptr[fd]].fd == fd
    && e in s.objects[s.ptr[fd]].events
    && Context(s.objects[s.ptr[fd]], e) == EventContext(Some(0), Some(c), None)
  }

  lemma ParkedIff(s: E.State, fd: nat, e: Event, c: nat)
    requires KernelOk(s)
    ensures HR.Parks(Attached(s).slots, fd, e, c) <==> ParkedAt(s, fd, e, c)
  {
    if fd in s.ptr { assert s.objects[s.ptr[fd]].fd <= s.ptr[fd]; }
  }

  /**
   * Whichever of report, timeout, cancel or close comes first, whatever contexts they hold and whatever
   * a growth has cut off: each wait is resumed once, and is in the context the kernel knows until then.
   */
  lemma OneResumptionPerWait(states: seq<State>, acts: seq<Action>, i: nat, c: nat)
    requires IsRun(states, acts) && i < |states| && c < |states[i].calls|
    ensures var call := states[i].calls[c];
            && call.resumes <= call.waits <= call.resumes + 1
            && (call.waits == call.resumes + 1 <==> call.pc == H.Waiting)
            && (call.pc == H.Waiting <==> ParkedAt(states[i].race, call.fd, call.event, c))
  {
    RunInv(states, acts, i);
    ParkedIff(states[i].race, states[i].calls[c].fd, states[i].calls[c].event, c);
  }

  /** A call reports ETIMEDOUT only when a timeout callback of that same call has set its flag. */
  lemma TimeoutIsOwn(states: seq<State>, acts: seq<Action>, i: nat, c: nat)
    requires IsRun(states, acts) && i < |states| && c < |states[i].calls|
    requires states[i].calls[c].pc == H.Returned(true)
    ensures exists t ::
              0 <= t < |states[i].timers| && states[i].timers[t].call == c && HR.WroteFlag(states[i].timers[t].phase)
  {
    RunInv(states, acts, i);
    assert HR.HasWriter(states[i].timers, c);
  }

  /** No step resumes a call that is not waiting, or one twice. */
  lemma ResumedOnlyWhileWaiting(j: State, x: Action, c: nat)
    requires Inv(j) && Enabled(j, x) && c < |j.calls|
    ensures c < |Apply(j, x).calls|
    ensures var call, call' := j.calls[c], Apply(j, x).calls[c];
            call'.resumes == call.resumes || (call.pc == H.Waiting && call' == HR.Woken(call))
  {
    match x
    case Own(a) => OwnResumesNone(Bare(j), a, c);
    case Lookup(k) => LookupKeeps(j, k);
    case Grow(k) => GrowKeeps(j, k);
    case Commit(k, ok) => CommitKeeps(j, k, ok);
    case _ =>
  }

  lemma OwnResumesNone(s: H.State, a: H.Action, c: nat)
    requires IsLocal(a) && H.Enabled(s, a) && c < |s.calls|
    ensures c < |H.Apply(s, a).calls| && H.Apply(s, a).calls[c].resumes == s.calls[c].resumes
  {
    match a case _ =>
  }

  // ---------------------------------------------------------------- no wait is out of reach

  /** A report of registered events on the descriptor of a call: of its event, or an error or hang-up. */
  predicate ReportsTo(kernel: map<nat, set<Event>>, call: H.Call, op: R.Action) {
    && op.Report? && op.ok && op.fd == call.fd && op.fd in kernel && op.reported <= kernel[op.fd]
    && (call.event in op.reported || op.errHup)
  }

  /** A report brings the context along that the kernel's entry names, so its section wakes the call. */
  lemma HeldReport(j: State, k: nat, c: nat, op: R.Action)
    requires Inv(j) && c < |j.calls| && j.calls[c].pc == H.Waiting && ReportsTo(j.race.kernel, j.calls[c], op)
    requires ParkedAt(j.race, op.fd, j.calls[c].event, c) && k < |j.race.calls| && j.purpose[k] == Free
    requires j.race.calls[k] == E.Call(op, E.Holding(j.race.ptr[op.fd]))
    ensures Enabled(j, Commit(k, true)) && c < |Apply(j, Commit(k, true)).calls|
    ensures Apply(j, Commit(k, true)).calls[c] == HR.Woken(j.calls[c])
  {
    ReportAccepted(Shown(j), c, op);
    assert E.WithOk(op, true) == op;
    CommitResumes(j, k, c, op);
  }

  lemma ReportAccepted(s: H.State, c: nat, op: R.Action)
    requires HR.Inv(s) && c < |s.calls| && s.calls[c].pc == H.Waiting && ReportsTo(s.table.kernel, s.calls[c], op)
    ensures op.fd < |s.table.slots| && R.Result(s.table, op).1 == Done
    ensures H.TableStep(s, R.Result(s.table, op).0).calls[c] == HR.Woken(s.calls[c])
  {
    var fd, e := op.fd, s.calls[c].event;
    assert HR.Parks(s.table.slots, fd, e, c);
    var bits := if op.errHup then s.table.slots[fd].events else op.reported;
    assert RealEvents(s.table.slots[fd], op.reported, op.errHup) == bits;
    BitsHandOver(s.table, fd, op.reported, op.errHup, bits);
    HL.ParkedWoken(s, fd, e, c, R.Result(s.table, op).0, bits);
  }

  lemma CommitWakes(j: State, k: nat, op: R.Action)
    requires Inv(j) && Enabled(j, Commit(k, true)) && !j.purpose[k].Park? && !op.Add? && !op.Del?
    requires E.WithOk(j.race.calls[k].op, true) == op
    requires E.Section(j.race, j.race.calls[k].op, j.race.calls[k].pc.ctx, true).1 == Done
    ensures Apply(j, Commit(k, true)).calls == H.TableStep(Shown(j), R.Result(Attached(j.race), op).0).calls
  {
    var r' := E.Apply(j.race, E.Commit(k, true));
    CommitEnds(j, k, true);
    OthersAnswered(Shown(j), op, Attached(r'), Done);
    OtherEnded(j, k, r', Done);
  }

  /**
   * In every state, whatever was cut off: a report of the event of a waiting call, or of an error or
   * hang-up on its descriptor, finds it, and its section is possible and resumes the call.
   */
  lemma ReportResumes(j: State, c: nat, op: R.Action)
    requires Inv(j) && c < |j.calls| && j.calls[c].pc == H.Waiting && ReportsTo(j.race.kernel, j.calls[c], op)
    ensures var a, k := StartOther(op), |j.race.calls|;
            && Enabled(j, a) && Enabled(Apply(j, a), Lookup(k))
            && Enabled(Apply(Apply(j, a), Lookup(k)), Commit(k, true))
            && Resumes(Apply(Apply(Apply(j, a), Lookup(k)), Commit(k, true)), j, c)
  {
    var a, k := StartOther(op), |j.race.calls|;
    assert HR.Parks(Attached(j.race).slots, op.fd, j.calls[c].event, c);
    ParkedIff(j.race, op.fd, j.calls[c].event, c);
    InvStep(j, a);
    var j1 := Apply(j, a);
    LookupKeeps(j1, k);
    ReportHolds(j, k, op);
    HeldReport(Apply(j1, Lookup(k)), k, c, op);
  }

  /** The kernel knows the event of every waiting call, so a report of it alone is such a report. */
  lemma OwnReport(j: State, c: nat)
    requires Inv(j) && c < |j.calls| && j.calls[c].pc == H.Waiting
    ensures ReportsTo(j.race.kernel, j.calls[c], R.Report(j.calls[c].fd, {j.calls[c].event}, false, true))
    ensures ReportsTo(j.race.kernel, j.calls[c], R.Report(j.calls[c].fd, {}, true, true))
  {
    assert HR.Parks(Attached(j.race).slots, j.calls[c].fd, j.calls[c].event, c);
  }

  predicate Resumes(j': State, j: State, c: nat) {
    c < |j.calls| && c < |j'.calls| && j'.calls[c] == HR.Woken(j.calls[c])
  }

  lemma ReportHolds(j: State, k: nat, op: R.Action)
    requires op.Report? && k == |j.race.calls| && |j.purpose| == k && op.fd in j.race.ptr
    ensures var j1 := Started(j, op, Free);
            && Enabled(j1, Lookup(k))
            && var j2 := Apply(j1, Lookup(k));
               && j2.calls == j.calls && j2.race.ptr == j.race.ptr && j2.race.objects == j.race.objects
               && j2.race.kernel == j.race.kernel
               && k < |j2.race.calls| && j2.purpose == j.purpose + [Free]
               && j2.race.calls[k] == E.Call(op, E.Holding(j.race.ptr[op.fd]))
  {}

  // ---------------------------------------------------------------- which waits a timeout reaches

  /** The callback of timeout `t` calls cancelEvent, and `epoll_ctl` accepts. */
  ghost predicate CancelsTo(j: State, t: nat, j': State) {
    var k := |j.race.calls|;
    && Enabled(j, StartCancel(t)) && Enabled(Apply(j, StartCancel(t)), Lookup(k))
    && var j2 := Apply(Apply(j, StartCancel(t)), Lookup(k));
       && k < |j2.race.calls|
       && if j2.race.calls[k].pc.Ended? then j' == j2
          else Enabled(j2, Commit(k, true)) && j' == Apply(j2, Commit(k, true))
  }

  /** The lookup of cancelEvent, with nothing else in between. */
  lemma CancelLooksUp(j: State, t: nat)
    requires Inv(j) && Enabled(j, StartCancel(t))
    ensures var j1, k, fd := Apply(j, StartCancel(t)), |j.race.calls|, j.calls[j.timers[t].call].fd;
            && Inv(j1) && Enabled(j1, Lookup(k))
            && var j2 := Apply(j1, Lookup(k));
               && Inv(j2) && j2.calls == j.calls && j2.race.ptr == j.race.ptr && j2.race.objects == j.race.objects
               && j2.race.vec == j.race.vec && j2.race.kernel == j.race.kernel
               && k < |j2.race.calls| && j2.purpose == j.purpose + [Timeout(t)]
               && j2.race.calls[k] == E.Call(CancelOf(j.calls, j.timers, t),
                    if fd < |j.race.vec| then E.Holding(j.race.vec[fd]) else E.Ended(Refused))
  {
    var j1, k := Apply(j, StartCancel(t)), |j.race.calls|;
    InvStep(j, StartCancel(t));
    LookupKeeps(j1, k);
    CancelFinds(j, k, CancelOf(j.calls, j.timers, t), t);
  }

  lemma CancelFinds(j: State, k: nat, op: R.Action, t: nat)
    requires op.Cancel? && k == |j.race.calls| == |j.purpose|
    ensures var j1 := Started(j, op, Timeout(t));
            && Enabled(j1, Lookup(k))
            && var r := Apply(j1, Lookup(k)).race;
               && r.ptr == j.race.ptr && r.objects == j.race.objects && r.vec == j.race.vec && r.kernel == j.race.kernel
               && k < |r.calls| && Apply(j1, Lookup(k)).purpose == j.purpose + [Timeout(t)]
               && r.calls[k] ==
                    E.Call(op, if op.fd < |j.race.vec| then E.Holding(j.race.vec[op.fd]) else E.Ended(Refused))
  {}

  /** On the context that the kernel knows the cancel succeeds and wakes the call. */
  lemma CancelHits(j: State, k: nat, c: nat, op: R.Action)
    requires Inv(j) && k < |j.race.calls| && j.purpose[k].Timeout? && c < |j.calls| && j.calls[c].pc == H.Waiting
    requires op == R.Cancel(j.calls[c].fd, j.calls[c].event, false) && op.fd in j.race.ptr
    requires j.race.calls[k] == E.Call(op, E.Holding(j.race.ptr[op.fd]))
    ensures Enabled(j, Commit(k, true)) && c < |Apply(j, Commit(k, true)).calls|
    ensures Apply(j, Commit(k, true)).calls[c] == HR.Woken(j.calls[c])
  {
    var op' := R.Cancel(op.fd, op.event, true);
    assert E.WithOk(op, true) == op';
    CancelAccepted(Shown(j), c, op');
    CommitResumes(j, k, c, op');
  }

  /** An operation that wakes the call on the attached table wakes it when it holds the context the kernel knows. */
  lemma CommitResumes(j: State, k: nat, c: nat, op: R.Action)
    requires Inv(j) && k < |j.race.calls| && !j.purpose[k].Park? && c < |j.calls| && !op.Add? && !op.Del?
    requires op.fd in j.race.ptr && E.WithOk(j.race.calls[k].op, true) == op
    requires j.race.calls[k].pc == E.Holding(j.race.ptr[op.fd]) && R.Result(Attached(j.race), op).1 == Done
    requires H.TableStep(Shown(j), R.Result(Attached(j.race), op).0).calls[c] == HR.Woken(j.calls[c])
    ensures Enabled(j, Commit(k, true)) && c < |Apply(j, Commit(k, true)).calls|
    ensures Apply(j, Commit(k, true)).calls[c] == HR.Woken(j.calls[c])
  {
    AttachedSection(j.race, k, op);
    CommitWakes(j, k, op);
  }

  /** A section of the context that the kernel knows ends as the operation on the attached table. */
  lemma AttachedSection(r: E.State, k: nat, op: R.Action)
    requires KernelOk(r) && op.fd in r.ptr && k < |r.calls| && r.calls[k].pc == E.Holding(r.ptr[op.fd])
    requires E.WithOk(r.calls[k].op, true) == op && R.Result(Attached(r), op).1 == Done
    ensures E.Enabled(r, E.Commit(k, true)) && E.Section(r, r.calls[k].op, r.calls[k].pc.ctx, true).1 == Done
  {
    assert r.objects[r.ptr[op.fd]].fd <= r.ptr[op.fd];
    E.SectionIsLocal(Attached(r), E.ViewAt(r, op.fd, r.ptr[op.fd]), op);
  }

  lemma CancelAccepted(s: H.State, c: nat, op: R.Action)
    requires HR.Inv(s) && c < |s.calls| && s.calls[c].pc == H.Waiting
    requires op == R.Cancel(s.calls[c].fd, s.calls[c].event, true)
    ensures op.fd < |s.table.slots| && R.Result(s.table, op).1 == Done
    ensures H.TableStep(s, R.Result(s.table, op).0).calls[c] == HR.Woken(s.calls[c])
  {
    assert HR.Parks(s.table.slots, op.fd, op.event, c);
    CancelOk(s.table, op.fd, op.event, true);
    HL.CancelOne(s.table, op.fd, op.event);
    HL.ParkedWoken(s, op.fd, op.event, c, R.Result(s.table, op).0, {op.event});
  }

  /** On another context of the descriptor there is nothing to cancel. */
  lemma CancelMisses(j: State, k: nat)
    requires Inv(j) && k < |j.race.calls| && j.purpose[k].Timeout? && j.race.calls[k].op.Cancel?
    requires j.race.calls[k].pc.Holding? && j.race.calls[k].op.fd in j.race.ptr
    requires j.race.calls[k].op.fd in j.race.kernel
    requires j.race.calls[k].pc.ctx != j.race.ptr[j.race.calls[k].op.fd]
    ensures Enabled(j, Commit(k, true)) && Apply(j, Commit(k, true)).calls == j.calls
  {
    var op, ctx := E.WithOk(j.race.calls[k].op, true), j.race.calls[k].pc.ctx;
    assert HoldsOwn(j.race, j.race.calls[k]);
    assert AttachedOrUnused(j.race, ctx);
    StaleIsRefused(E.ViewAt(j.race, op.fd, ctx), op);
    CommitMisses(j, k);
  }

  lemma CommitMisses(j: State, k: nat)
    requires Inv(j) && Enabled(j, Commit(k, true)) && j.purpose[k].Timeout? && j.race.calls[k].op.Cancel?
    requires E.Section(j.race, j.race.calls[k].op, j.race.calls[k].pc.ctx, true).1 == Refused
    ensures Apply(j, Commit(k, true)).calls == j.calls
  {
    var r' := E.Apply(j.race, E.Commit(k, true));
    CommitEnds(j, k, true);
    OthersAnswered(Shown(j), E.WithOk(j.race.calls[k].op, true), Attached(r'), Refused);
    OtherEnded(j, k, r', Refused);
    HR.QuietTableStep(Shown(j));
  }

  /** From the lookup on: the context found is the one the kernel knows, another one, or none. */
  lemma CancelGoesOn(j: State, k: nat, c: nat, op: R.Action) returns (j': State)
    requires Inv(j) && k < |j.race.calls| && j.purpose[k].Timeout? && c < |j.calls| && j.calls[c].pc == H.Waiting
    requires op == R.Cancel(j.calls[c].fd, j.calls[c].event, false) && op.fd in j.race.ptr && op.fd in j.race.kernel
    requires j.race.calls[k] ==
             E.Call(op, if op.fd < |j.race.vec| then E.Holding(j.race.vec[op.fd]) else E.Ended(Refused))
    ensures if j.race.calls[k].pc.Ended? then j' == j
            else Enabled(j, Commit(k, true)) && j' == Apply(j, Commit(k, true))
    ensures c < |j'.calls|
    ensures j'.calls[c] == if E.Linked(j.race, op.fd, j.race.ptr[op.fd]) then HR.Woken(j.calls[c]) else j.calls[c]
  {
    if op.fd >= |j.race.vec| {
      j' := j;
    } else if j.race.vec[op.fd] == j.race.ptr[op.fd] {
      CancelHits(j, k, c, op);
      j' := Apply(j, Commit(k, true));
    } else {
      CancelMisses(j, k);
      j' := Apply(j, Commit(k, true));
    }
  }

  /**
   * A timeout that has written its flag wakes its own waiting call if and only if the vector still has
   * the context of the wait. After a cut the call waits on until a report.
   */
  lemma TimeoutReachesIff(j: State, t: nat) returns (j': State)
    requires Inv(j) && Enabled(j, StartCancel(t)) && j.calls[j.timers[t].call].pc == H.Waiting
    ensures CancelsTo(j, t, j')
    ensures var c := j.timers[t].call;
            var fd := j.calls[c].fd;
            && fd in j.race.ptr && c < |j'.calls|
            && j'.calls[c] == if E.Linked(j.race, fd, j.race.ptr[fd]) then HR.Woken(j.calls[c]) else j.calls[c]
  {
    var c := j.timers[t].call;
    WaitIsKnown(j, c);
    CancelLooksUp(j, t);
    var j2 := Apply(Apply(j, StartCancel(t)), Lookup(|j.race.calls|));
    j' := CancelGoesOn(j2, |j.race.calls|, c, CancelOf(j.calls, j.timers, t));
  }

  lemma WaitIsKnown(j: State, c: nat)
    requires Inv(j) && c < |j.calls| && j.calls[c].pc == H.Waiting
    ensures j.calls[c].fd in j.race.ptr && j.calls[c].fd in j.race.kernel
  {
    var fd, e := j.calls[c].fd, j.calls[c].event;
    assert HR.Parks(Attached(j.race).slots, fd, e, c);
    ParkedIff(j.race, fd, e, c);
  }
}
