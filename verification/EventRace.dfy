/**
 * The event table as `addEvent` really finds it: the context is looked up, and the vector grown, under
 * the manager's lock, and the context is used later under its own mutex. Contexts are objects that are
 * never freed; a resize may cut them off the vector while an operation or the kernel still points at them.
 */
module EventRace {
  import opened EventTable
  import R = EventRuns

  datatype Pc =
    | Begun
    | MustGrow               // the vector was too short; the read lock is given up
    | Holding(ctx: nat)      // has a context and waits for its mutex
    | Ended(out: Outcome)

  /** One call of addEvent, delEvent, cancelEvent or cancelAll, or one report of `epoll_wait`. */
  datatype Call = Call(op: R.Action, pc: Pc)

  /** `vec` is `m_fdContexts`; `ptr` is the `data.ptr` last given to the kernel for a descriptor. */
  datatype State = State(
    objects: seq<FdContext>,
    vec: seq<nat>,
    ptr: map<nat, nat>,
    kernel: map<nat, set<Event>>,
    pending: int,
    log: seq<Handed>,
    calls: seq<Call>)

  datatype Action =
    | Begin(op: R.Action)
    | Lookup(k: nat)
    | Grow(k: nat)
    | Commit(k: nat, ok: bool)

  predicate VecInside(s: State) {
    forall i :: 0 <= i < |s.vec| ==> s.vec[i] < |s.objects|
  }

  function Slots(s: State): (r: seq<FdContext>)
    requires VecInside(s)
    ensures |r| == |s.vec| && forall i :: 0 <= i < |r| ==> r[i] == s.objects[s.vec[i]]
  {
    seq(|s.vec|, i requires 0 <= i < |s.vec| => s.objects[s.vec[i]])
  }

  /** What a lookup can reach. */
  function View(s: State): Table
    requires VecInside(s)
  {
    Table(Slots(s), s.kernel, s.pending, s.log)
  }

  /** What an operation sees under the mutex of context `c`: that context and nothing else of the vector. */
  function ViewAt(s: State, fd: nat, c: nat): (t: Table)
    requires c < |s.objects|
    ensures |t.slots| == fd + 1 && t.slots[fd] == s.objects[c]
    ensures t.kernel == s.kernel && t.pending == s.pending && t.log == s.log
  {
    Table(seq(fd + 1, i requires 0 <= i => if i == fd then s.objects[c] else FdContext(i, {}, EMPTY, EMPTY)),
          s.kernel, s.pending, s.log)
  }

  function Init(): State {
    State(FreshSlots(0, 32), seq(32, i requires 0 <= i => i), map[], map[], 0, [], [])
  }

  // ---------------------------------------------------------------- steps

  function SetPc(s: State, k: nat, pc: Pc): State
    requires k < |s.calls|
  {
    s.(calls := s.calls[k := s.calls[k].(pc := pc)])
  }

  /** A report brings its context along; the other operations look it up in the vector. */
  function Found(s: State, op: R.Action): Pc {
    if op.Report? then if op.fd in s.ptr then Holding(s.ptr[op.fd]) else Ended(Refused)
    else if op.fd < |s.vec| then Holding(s.vec[op.fd])
    else if op.Add? then MustGrow
    else Ended(Refused)
  }

  /** `contextResize`: a cut forgets contexts, an extension makes new ones. */
  function Resized(s: State, size: nat): State {
    if size <= |s.vec| then s.(vec := s.vec[..size])
    else s.(objects := s.objects + FreshSlots(|s.vec|, size),
            vec := s.vec + seq(size - |s.vec|, i requires 0 <= i => |s.objects| + i))
  }

  /** The operation with this answer of `epoll_ctl`. */
  function WithOk(op: R.Action, ok: bool): R.Action {
    match op
    case Add(fd, e, scheduler, handle, _) => R.Add(fd, e, scheduler, handle, ok)
    case Del(fd, e, _) => R.Del(fd, e, ok)
    case Cancel(fd, e, _) => R.Cancel(fd, e, ok)
    case CancelBoth(fd, _) => R.CancelBoth(fd, ok)
    case Report(fd, reported, errHup, _) => R.Report(fd, reported, errHup, ok)
  }

  /** The critical section of a context; `ok` is what `epoll_ctl` answers. */
  function Section(s: State, op: R.Action, c: nat, ok: bool): (Table, Outcome)
    requires c < |s.objects|
  {
    R.Result(ViewAt(s, op.fd, c), WithOk(op, ok))
  }

  function DoCommit(s: State, k: nat, ok: bool): State
    requires k < |s.calls| && s.calls[k].pc.Holding? && s.calls[k].pc.ctx < |s.objects|
  {
    var op, c := s.calls[k].op, s.calls[k].pc.ctx;
    var (t', out) := Section(s, op, c, ok);
    var s1 := SetPc(s, k, Ended(out));
    if op.fd < |t'.slots| then
      s1.(objects := s.objects[c := t'.slots[op.fd]], kernel := t'.kernel, pending := t'.pending, log := t'.log,
          ptr := if out == Done then s.ptr[op.fd := c] else s.ptr)
    else s1
  }

  predicate Enabled(s: State, a: Action) {
    match a
    case Begin(_) => true
    case Lookup(k) => k < |s.calls| && s.calls[k].pc == Begun
    case Grow(k) => k < |s.calls| && s.calls[k].pc == MustGrow && s.calls[k].op.fd < GrowTo(s.calls[k].op.fd)
    case Commit(k, ok) =>
      && k < |s.calls| && s.calls[k].pc.Holding? && s.calls[k].pc.ctx < |s.objects|
      && Section(s, s.calls[k].op, s.calls[k].pc.ctx, ok).1 != Aborted
  }

  function Apply(s: State, a: Action): State
    requires Enabled(s, a)
  {
    match a
    case Begin(op) => s.(calls := s.calls + [Call(op, Begun)])
    case Lookup(k) => SetPc(s, k, Found(s, s.calls[k].op))
    case Grow(k) =>
      var fd := s.calls[k].op.fd;
      var s1 := Resized(s, GrowTo(fd));
      SetPc(s1, k, if fd < |s1.vec| then Holding(s1.vec[fd]) else Ended(Aborted))
    case Commit(k, ok) => DoCommit(s, k, ok)
  }

  ghost predicate RunFrom(s: State, states: seq<State>, acts: seq<Action>) {
    && |states| == |acts| + 1 && states[0] == s
    && forall i :: 0 <= i < |acts| ==> Enabled(states[i], acts[i]) && states[i + 1] == Apply(states[i], acts[i])
  }

  // ---------------------------------------------------------------- the invariant

  /** Contexts are distinct objects, and one that is cut off has nothing registered. */
  ghost predicate ObjectsOk(s: State) {
    && VecInside(s) && TableOk(View(s))
    && (forall c :: 0 <= c < |s.objects| && c !in s.vec ==> s.objects[c].events == {})
    && (forall fd :: fd in s.ptr ==> s.ptr[fd] < |s.objects| && s.objects[s.ptr[fd]].fd == fd)
  }

  predicate Linked(s: State, fd: nat, c: nat) { fd < |s.vec| && s.vec[fd] == c }

  /** An operation in flight holds a context of its descriptor; an addEvent holds the one in the vector. */
  ghost predicate CallOk(s: State, call: Call) {
    && (call.pc == MustGrow ==> call.op.Add? && call.op.fd >= 32)
    && (call.pc.Holding? ==>
          && call.pc.ctx < |s.objects| && s.objects[call.pc.ctx].fd == call.op.fd
          && (call.op.Add? ==> Linked(s, call.op.fd, call.pc.ctx)))
  }

  ghost predicate RaceOk(s: State) {
    ObjectsOk(s) && forall k :: 0 <= k < |s.calls| ==> CallOk(s, s.calls[k])
  }

  /** Nothing at or beyond `size` is registered, and no addEvent is about to register there. */
  ghost predicate NothingBeyond(s: State, size: nat)
    requires VecInside(s)
  {
    && (forall i :: size <= i < |s.vec| ==> s.objects[s.vec[i]].events == {})
    && (forall k :: 0 <= k < |s.calls| && s.calls[k].op.Add? && s.calls[k].pc.Holding? ==> s.calls[k].op.fd < size)
  }

  lemma InitRace()
    ensures RaceOk(Init())
  {
    assert Slots(Init()) == Resize([], 32);
    InitOk();
  }

  /** In such states a held context is the one in the vector or has nothing registered. */
  lemma HeldPlace(s: State, fd: nat, c: nat)
    requires ObjectsOk(s) && c < |s.objects| && s.objects[c].fd == fd
    ensures Linked(s, fd, c) || s.objects[c].events == {}
  {
    if c in s.vec {
      var i :| 0 <= i < |s.vec| && s.vec[i] == c;
      assert View(s).slots[i].fd == i;
    }
  }

  // ---------------------------------------------------------------- critical sections

  /** An operation on a descriptor inside the table depends on its own slot only. */
  lemma SectionIsLocal(t: Table, u: Table, a: R.Action)
    requires a.fd < |t.slots| && a.fd < |u.slots| && t.slots[a.fd] == u.slots[a.fd]
    requires t.kernel == u.kernel && t.pending == u.pending && t.log == u.log
    ensures var r, q := R.Result(t, a), R.Result(u, a);
            && r.1 == q.1 && |q.0.slots| == |u.slots| && |r.0.slots| == |t.slots|
            && r.0 == Table(t.slots[a.fd := q.0.slots[a.fd]], q.0.kernel, q.0.pending, q.0.log)
  {
    if a.CancelBoth? || a.Report? { TriggersAreLocal(t, u, a); } else { match a case _ => }
  }

  lemma TriggersAreLocal(t: Table, u: Table, a: R.Action)
    requires a.CancelBoth? || a.Report?
    requires a.fd < |t.slots| && a.fd < |u.slots| && t.slots[a.fd] == u.slots[a.fd]
    requires t.kernel == u.kernel && t.pending == u.pending && t.log == u.log
    ensures var r, q := R.Result(t, a), R.Result(u, a);
            && r.1 == q.1 && |q.0.slots| == |u.slots| && |r.0.slots| == |t.slots|
            && r.0 == Table(t.slots[a.fd := q.0.slots[a.fd]], q.0.kernel, q.0.pending, q.0.log)
  {
    match a case _ =>
  }

  lemma ResultOk(t: Table, a: R.Action)
    requires TableOk(t) && R.Result(t, a).1 != Aborted
    ensures TableOk(R.Result(t, a).0)
  {
    match a
    case Add(fd, e, scheduler, handle, ok) => AddOk(t, fd, e, scheduler, handle, ok);
    case Del(fd, e, ok) => DelOk(t, fd, e, ok);
    case Cancel(fd, e, ok) => CancelOk(t, fd, e, ok);
    case CancelBoth(fd, ok) => CancelAllOk(t, fd, ok);
    case Report(fd, reported, errHup, ok) => DeliverOk(t, fd, reported, errHup, ok);
  }

  /** On a context without registered bits everything but addEvent is refused and changes nothing. */
  lemma NothingToDo(t: Table, a: R.Action)
    requires a.fd < |t.slots| && t.slots[a.fd].events == {} && !a.Add?
    ensures R.Result(t, a) == (t, Refused)
  {
    match a case _ =>
  }

  /** A section of a context in the vector is the operation on the table. */
  lemma CommitLinked(s: State, k: nat, ok: bool)
    requires ObjectsOk(s) && Enabled(s, Commit(k, ok)) && Linked(s, s.calls[k].op.fd, s.calls[k].pc.ctx)
    ensures VecInside(DoCommit(s, k, ok))
    ensures View(DoCommit(s, k, ok)) == R.Result(View(s), WithOk(s.calls[k].op, ok)).0
    ensures TableOk(View(DoCommit(s, k, ok)))
  {
    var op, c := s.calls[k].op, s.calls[k].pc.ctx;
    var t := View(s);
    SectionIsLocal(t, ViewAt(s, op.fd, c), WithOk(op, ok));
    ResultOk(t, WithOk(op, ok));
    CommitSlots(s, k, ok, R.Result(t, WithOk(op, ok)).0);
  }

  lemma CommitSlots(s: State, k: nat, ok: bool, r: Table)
    requires ObjectsOk(s) && Enabled(s, Commit(k, ok)) && Linked(s, s.calls[k].op.fd, s.calls[k].pc.ctx)
    requires var q := Section(s, s.calls[k].op, s.calls[k].pc.ctx, ok).0;
             s.calls[k].op.fd < |q.slots|
             && r == Table(View(s).slots[s.calls[k].op.fd := q.slots[s.calls[k].op.fd]], q.kernel, q.pending, q.log)
    ensures VecInside(DoCommit(s, k, ok)) && View(DoCommit(s, k, ok)) == r
  {
    var s' := DoCommit(s, k, ok);
    forall i | 0 <= i < |s.vec| ensures s'.objects[s.vec[i]] == r.slots[i] {
      assert View(s).slots[i].fd == i;
    }
    assert Slots(s') == r.slots;
  }

  lemma CommitObjects(s: State, k: nat, ok: bool)
    requires ObjectsOk(s) && Enabled(s, Commit(k, ok)) && CallOk(s, s.calls[k])
    ensures ObjectsOk(DoCommit(s, k, ok))
    ensures |DoCommit(s, k, ok).objects| == |s.objects| && DoCommit(s, k, ok).vec == s.vec
    ensures forall c :: 0 <= c < |s.objects| ==> DoCommit(s, k, ok).objects[c].fd == s.objects[c].fd
  {
    var op, c := s.calls[k].op, s.calls[k].pc.ctx;
    HeldPlace(s, op.fd, c);
    CommitShape(s, k, ok);
    var s' := DoCommit(s, k, ok);
    if Linked(s, op.fd, c) {
      CommitLinked(s, k, ok);
      assert View(s').slots[op.fd].fd == op.fd;
      OneObjectChanged(s, s', op.fd, c);
    } else {
      CommitNothing(s, k, ok);
      OneObjectChanged(s, s', op.fd, c);
    }
  }

  /** A section changes the context it holds and nothing else of the objects. */
  lemma CommitShape(s: State, k: nat, ok: bool)
    requires Enabled(s, Commit(k, ok))
    ensures var s', c := DoCommit(s, k, ok), s.calls[k].pc.ctx;
            && |s'.objects| == |s.objects| && s'.vec == s.vec
            && s'.objects == s.objects[c := s'.objects[c]]
            && (s'.ptr == s.ptr || s'.ptr == s.ptr[s.calls[k].op.fd := c])
  {}

  lemma CommitNothing(s: State, k: nat, ok: bool)
    requires ObjectsOk(s) && Enabled(s, Commit(k, ok)) && CallOk(s, s.calls[k])
    requires !Linked(s, s.calls[k].op.fd, s.calls[k].pc.ctx)
    ensures DoCommit(s, k, ok).objects == s.objects
    ensures VecInside(DoCommit(s, k, ok)) && View(DoCommit(s, k, ok)) == View(s)
  {
    var op, c := s.calls[k].op, s.calls[k].pc.ctx;
    HeldPlace(s, op.fd, c);
    NothingToDo(ViewAt(s, op.fd, c), WithOk(op, ok));
    assert DoCommit(s, k, ok).objects == s.objects;
    assert Slots(DoCommit(s, k, ok)) == Slots(s);
  }

  lemma OneObjectChanged(s: State, s': State, fd: nat, c: nat)
    requires ObjectsOk(s) && c < |s.objects| && s.objects[c].fd == fd
    requires |s'.objects| == |s.objects| && s'.vec == s.vec && s'.objects == s.objects[c := s'.objects[c]]
    requires s'.ptr == s.ptr || s'.ptr == s.ptr[fd := c]
    requires s'.objects[c].fd == fd && (Linked(s, fd, c) || s'.objects == s.objects)
    requires VecInside(s') && TableOk(View(s'))
    ensures ObjectsOk(s')
    ensures forall x :: 0 <= x < |s.objects| ==> s'.objects[x].fd == s.objects[x].fd
  {
    if Linked(s, fd, c) { assert s.vec[fd] in s.vec; }
  }

  /** Every step but a growth keeps the table as reachable as it was. */
  lemma RaceStep(s: State, a: Action)
    requires RaceOk(s) && Enabled(s, a) && !a.Grow?
    ensures RaceOk(Apply(s, a))
  {
    match a
    case Commit(k, ok) => CommitKeeps(s, k, ok);
    case Lookup(k) => LookupKeeps(s, k);
    case Begin(op) => BeginKeeps(s, op);
  }

  lemma CommitKeeps(s: State, k: nat, ok: bool)
    requires RaceOk(s) && Enabled(s, Commit(k, ok))
    ensures RaceOk(DoCommit(s, k, ok))
  {
    var s' := DoCommit(s, k, ok);
    assert CallOk(s, s.calls[k]);
    CommitObjects(s, k, ok);
    CallsKept(s, s', k);
  }

  lemma LookupKeeps(s: State, k: nat)
    requires RaceOk(s) && Enabled(s, Lookup(k))
    ensures RaceOk(Apply(s, Lookup(k)))
  {
    var s' := Apply(s, Lookup(k));
    assert Slots(s') == Slots(s);
    LookupFinds(s, s.calls[k].op);
    CallsKept(s, s', k);
  }

  lemma BeginKeeps(s: State, op: R.Action)
    requires RaceOk(s)
    ensures RaceOk(s.(calls := s.calls + [Call(op, Begun)]))
  {
    var s' := s.(calls := s.calls + [Call(op, Begun)]);
    assert Slots(s') == Slots(s);
    CallsKept(s, s', |s.calls|);
  }

  /** Calls other than `k` are in order as long as their contexts stay where they were. */
  lemma CallsKept(s: State, s': State, k: nat)
    requires RaceOk(s) && |s.calls| <= |s'.calls| && k < |s'.calls| <= |s.calls| + 1
             && (|s'.calls| > |s.calls| ==> k == |s.calls|)
    requires forall j :: 0 <= j < |s.calls| && j != k ==> s'.calls[j] == s.calls[j]
    requires s'.vec == s.vec && |s'.objects| == |s.objects|
    requires forall c :: 0 <= c < |s.objects| ==> s'.objects[c].fd == s.objects[c].fd
    requires ObjectsOk(s') && CallOk(s', s'.calls[k])
    ensures RaceOk(s')
  {
    forall j | 0 <= j < |s'.calls| ensures CallOk(s', s'.calls[j]) {
      if j != k { assert CallOk(s, s.calls[j]); }
    }
  }

  lemma LookupFinds(s: State, op: R.Action)
    requires ObjectsOk(s)
    ensures CallOk(s, Call(op, Found(s, op)))
  {
    if !op.Report? && op.fd < |s.vec| { assert View(s).slots[op.fd].fd == op.fd; }
  }

  // ---------------------------------------------------------------- growing

  lemma ResizedView(s: State, size: nat)
    requires VecInside(s)
    ensures VecInside(Resized(s, size)) && View(Resized(s, size)) == View(s).(slots := Resize(View(s).slots, size))
  {
    var s1, r := Resized(s, size), Resize(Slots(s), size);
    ResizedPlaces(s, size);
    assert |Slots(s1)| == |r|;
    forall i | 0 <= i < |r| ensures Slots(s1)[i] == r[i] {}
  }

  lemma ResizedPlaces(s: State, size: nat)
    requires VecInside(s)
    ensures var s1 := Resized(s, size);
            && |s1.vec| == size && VecInside(s1)
            && forall i :: 0 <= i < size ==>
                 s1.objects[s1.vec[i]] == if i < |s.vec| then s.objects[s.vec[i]] else FdContext(i, {}, EMPTY, EMPTY)
  {}

  /** A growth that cuts off nothing registered and no addEvent in flight is harmless. */
  lemma GrowKeeps(s: State, k: nat)
    requires RaceOk(s) && Enabled(s, Grow(k)) && NothingBeyond(s, GrowTo(s.calls[k].op.fd))
    ensures RaceOk(Apply(s, Grow(k)))
  {
    var fd := s.calls[k].op.fd;
    var s' := Apply(s, Grow(k));
    assert CallOk(s, s.calls[k]);
    GrowObjects(s, k);
    ResizedObjects(s, GrowTo(fd));
    assert View(s').slots[fd].fd == fd;
    forall j | 0 <= j < |s'.calls| ensures CallOk(s', s'.calls[j]) {
      if j != k { HeldKept(s, s', GrowTo(fd), s.calls[j]); }
    }
  }

  lemma HeldKept(s: State, s': State, size: nat, call: Call)
    requires CallOk(s, call) && (call.op.Add? && call.pc.Holding? ==> call.op.fd < size)
    requires |s'.objects| >= |s.objects| && forall c :: 0 <= c < |s.objects| ==> s'.objects[c] == s.objects[c]
    requires forall i :: 0 <= i < size && i < |s.vec| ==> i < |s'.vec| && s'.vec[i] == s.vec[i]
    ensures CallOk(s', call)
  {}

  lemma GrowObjects(s: State, k: nat)
    requires ObjectsOk(s) && Enabled(s, Grow(k)) && s.calls[k].op.fd >= 32
    requires forall i :: GrowTo(s.calls[k].op.fd) <= i < |s.vec| ==> s.objects[s.vec[i]].events == {}
    ensures ObjectsOk(Apply(s, Grow(k)))
  {
    var size := GrowTo(s.calls[k].op.fd);
    GrownView(s, k);
    LateResize(View(s), s.calls[k].op.fd);
    ResizedObjects(s, size);
  }

  lemma GrownView(s: State, k: nat)
    requires VecInside(s) && Enabled(s, Grow(k))
    ensures var s' := Apply(s, Grow(k));
            VecInside(s') && View(s') == View(s).(slots := Resize(View(s).slots, GrowTo(s.calls[k].op.fd)))
  {
    var s1 := Resized(s, GrowTo(s.calls[k].op.fd));
    ResizedView(s, GrowTo(s.calls[k].op.fd));
    assert Slots(Apply(s, Grow(k))) == Slots(s1);
  }

  lemma ResizedObjects(s: State, size: nat)
    requires ObjectsOk(s) && forall i :: size <= i < |s.vec| ==> s.objects[s.vec[i]].events == {}
    ensures var s1 := Resized(s, size);
            && |s1.objects| >= |s.objects|
            && (forall c :: 0 <= c < |s.objects| ==> s1.objects[c] == s.objects[c])
            && (forall c :: 0 <= c < |s1.objects| && c !in s1.vec ==> s1.objects[c].events == {})
            && (forall i :: 0 <= i < size && i < |s.vec| ==> i < |s1.vec| && s1.vec[i] == s.vec[i])
  {
    var s1 := Resized(s, size);
    forall c | 0 <= c < |s1.objects| && c !in s1.vec ensures s1.objects[c].events == {} {
      if c < |s.objects| && c in s.vec {
        var i :| 0 <= i < |s.vec| && s.vec[i] == c;
        CutOff(s, size, i);
      }
    }
  }

  lemma CutOff(s: State, size: nat, i: nat)
    requires VecInside(s) && i < |s.vec|
    ensures i < size ==> s.vec[i] in Resized(s, size).vec
  {
    if i < size { assert Resized(s, size).vec[i] == s.vec[i]; }
  }
}
