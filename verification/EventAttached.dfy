/**
 * What the kernel reaches: for every descriptor the context that its `data.ptr` names. A growth may cut
 * contexts off the vector, but it frees none, and a second context of a descriptor cannot register while
 * the kernel knows the first. So the attached contexts form a table of their own, and every critical
 * section, whatever context it holds, is an operation on that table or changes nothing.
 */
module EventAttached {
  import opened EventTable
  import opened EventRace
  import R = EventRuns

  function Unused(fd: nat): FdContext { FdContext(fd, {}, EMPTY, EMPTY) }

  predicate PtrsOk(s: State) {
    forall fd :: fd in s.ptr ==> s.ptr[fd] < |s.objects| && s.objects[s.ptr[fd]].fd == fd
  }

  function AttachedAt(s: State, fd: nat): FdContext
    requires PtrsOk(s)
  {
    if fd in s.ptr then s.objects[s.ptr[fd]] else Unused(fd)
  }

  /** No descriptor is as large as the number of contexts ever made. */
  function Attached(s: State): (t: Table)
    requires PtrsOk(s)
    ensures |t.slots| == |s.objects| && forall fd :: 0 <= fd < |t.slots| ==> t.slots[fd] == AttachedAt(s, fd)
    ensures t.kernel == s.kernel && t.pending == s.pending && t.log == s.log
  {
    Table(seq(|s.objects|, fd requires 0 <= fd => AttachedAt(s, fd)), s.kernel, s.pending, s.log)
  }

  /** A context is either unused or the attached one of its descriptor. */
  predicate AttachedOrUnused(s: State, c: nat)
    requires c < |s.objects|
  {
    var fd := s.objects[c].fd;
    s.objects[c] == Unused(fd) || (fd in s.ptr && s.ptr[fd] == c)
  }

  ghost predicate ContextsOk(s: State) {
    && VecInside(s) && |s.vec| <= |s.objects| && PtrsOk(s)
    && (forall i :: 0 <= i < |s.vec| ==> s.objects[s.vec[i]].fd == i)
    && (forall c :: 0 <= c < |s.objects| ==> s.objects[c].fd <= c && AttachedOrUnused(s, c))
  }

  /** A call in flight holds some context of its descriptor. */
  predicate HoldsOwn(s: State, call: Call) {
    call.pc.Holding? ==> call.pc.ctx < |s.objects| && s.objects[call.pc.ctx].fd == call.op.fd
  }

  /** Nothing here asks that the vector still has the contexts that are in use. */
  ghost predicate KernelOk(s: State) {
    && ContextsOk(s) && TableOk(Attached(s)) && s.pending == TotalBits(s.objects)
    && forall k :: 0 <= k < |s.calls| ==> HoldsOwn(s, s.calls[k])
  }

  lemma InitKernel()
    ensures KernelOk(Init()) && Attached(Init()) == InitTable()
  {
    InitAttached();
    InitOk();
    AllAttached(Init());
  }

  lemma AllAttached(s: State)
    requires ContextsOk(s) && TableOk(Attached(s)) && s.objects == Attached(s).slots && s.calls == []
    ensures KernelOk(s)
  {}

  lemma InitAttached()
    ensures ContextsOk(Init()) && Attached(Init()) == InitTable() && Init().objects == InitTable().slots
  {
    assert Init().objects == Resize([], 32);
    assert Attached(Init()).slots == Resize([], 32);
  }

  // ---------------------------------------------------------------- critical sections

  lemma RefusedChangesNothing(t: Table, a: R.Action)
    requires a.fd < |t.slots| && R.Result(t, a).1 == Refused
    ensures R.Result(t, a).0 == t
  {
    match a case _ =>
  }

  /** A clean context while the kernel knows the descriptor by another one. */
  lemma StaleIsRefused(t: Table, a: R.Action)
    requires a.fd < |t.slots| && t.slots[a.fd] == Unused(a.fd) && a.fd in t.kernel
    ensures R.Result(t, a) == (t, Refused)
  {
    if !a.Add? { NothingToDo(t, a); }
  }

  lemma UnusedIff(c: FdContext)
    requires SlotOk(c)
    ensures c == Unused(c.fd) <==> c.events == {}
  {}

  /** A section of context `c` sees `u`, does `a` to it and leaves `s'`. */
  ghost predicate SectionOn(s: State, s': State, c: nat, a: R.Action, u: Table) {
    && |u.slots| == a.fd + 1 && c < |s.objects| && u.slots[a.fd] == s.objects[c] && s.objects[c].fd == a.fd
    && u.kernel == s.kernel && u.pending == s.pending && u.log == s.log && R.Result(u, a).1 != Aborted
    && var (q, out) := R.Result(u, a);
       && a.fd < |q.slots| && s'.vec == s.vec && s'.objects == s.objects[c := q.slots[a.fd]]
       && s'.kernel == q.kernel && s'.pending == q.pending && s'.log == q.log
       && s'.ptr == if out == Done then s.ptr[a.fd := c] else s.ptr
  }

  lemma CommitIsSection(s: State, k: nat, ok: bool)
    requires KernelOk(s) && Enabled(s, Commit(k, ok))
    ensures var op, c := s.calls[k].op, s.calls[k].pc.ctx;
            SectionOn(s, DoCommit(s, k, ok), c, WithOk(op, ok), ViewAt(s, op.fd, c))
  {
    var op, c := s.calls[k].op, s.calls[k].pc.ctx;
    assert HoldsOwn(s, s.calls[k]);
    SectionIsLocal(ViewAt(s, op.fd, c), ViewAt(s, op.fd, c), WithOk(op, ok));
  }

  lemma SameAttached(s: State, s': State)
    requires PtrsOk(s) && s'.objects == s.objects && s'.ptr == s.ptr
    requires s'.kernel == s.kernel && s'.pending == s.pending && s'.log == s.log
    ensures PtrsOk(s') && Attached(s') == Attached(s)
  {
    assert Attached(s').slots == Attached(s).slots;
  }

  /** Only the attached context, or an unused one where nothing is attached, can be operated on. */
  lemma DoneHoldsAttached(s: State, s': State, c: nat, a: R.Action, u: Table)
    requires ContextsOk(s) && TableOk(Attached(s)) && SectionOn(s, s', c, a, u) && R.Result(u, a).1 == Done
    ensures s.objects[c] == Attached(s).slots[a.fd]
  {
    var x := Attached(s).slots[a.fd];
    assert AttachedOrUnused(s, c);
    UnusedIff(x);
    if s.objects[c] == Unused(a.fd) && x.events != {} { StaleIsRefused(u, a); }
  }

  /** The context of one descriptor was rewritten and is now the attached one. */
  lemma Rewritten(s: State, s': State, c: nat, fd: nat)
    requires ContextsOk(s) && c < |s.objects| && s.objects[c].fd == fd && s.objects[c] == Attached(s).slots[fd]
    requires |s'.objects| == |s.objects| && s'.objects == s.objects[c := s'.objects[c]] && s'.objects[c].fd == fd
    requires s'.vec == s.vec && s'.ptr == s.ptr[fd := c]
    ensures ContextsOk(s') && Attached(s').slots == Attached(s).slots[fd := s'.objects[c]]
  {
    forall d | 0 <= d < |s.objects| ensures s'.objects[d].fd <= d && AttachedOrUnused(s', d) {
      assert AttachedOrUnused(s, d);
    }
    assert Attached(s').slots == Attached(s).slots[fd := s'.objects[c]];
  }

  /** A successful section is the same operation on the attached contexts; a refused one changes none. */
  lemma SectionAttached(s: State, s': State, c: nat, a: R.Action, u: Table)
    requires ContextsOk(s) && TableOk(Attached(s)) && SectionOn(s, s', c, a, u)
    ensures ContextsOk(s') && TableOk(Attached(s'))
    ensures R.Result(u, a).1 == Refused ==> Attached(s') == Attached(s)
    ensures R.Result(u, a).1 == Done ==>
              && R.Result(Attached(s), a) == (Attached(s'), Done)
              && u.slots[a.fd] == Attached(s).slots[a.fd] && R.Result(u, a).0.slots[a.fd] == Attached(s').slots[a.fd]
  {
    if R.Result(u, a).1 == Refused {
      RefusedChangesNothing(u, a);
      SameAttached(s, s');
      SameContexts(s, s');
    } else {
      DoneHoldsAttached(s, s', c, a, u);
      SectionIsLocal(Attached(s), u, a);
      ResultOk(Attached(s), a);
      assert R.Result(Attached(s), a).0.slots[a.fd].fd == a.fd;
      Rewritten(s, s', c, a.fd);
    }
  }

  lemma SameContexts(s: State, s': State)
    requires ContextsOk(s) && s'.objects == s.objects && s'.ptr == s.ptr && s'.vec == s.vec
    ensures ContextsOk(s')
  {
    forall c | 0 <= c < |s'.objects| ensures s'.objects[c].fd <= c && AttachedOrUnused(s', c) {
      assert AttachedOrUnused(s, c);
    }
  }

  // ---------------------------------------------------------------- every step

  /** Contexts keep their descriptors, so calls in flight keep theirs. */
  lemma HeldOn(s: State, s': State, k: nat)
    requires (forall j :: 0 <= j < |s.calls| ==> HoldsOwn(s, s.calls[j])) && |s'.objects| >= |s.objects|
    requires forall c :: 0 <= c < |s.objects| ==> s'.objects[c].fd == s.objects[c].fd
    requires |s'.calls| == |s.calls| || (|s'.calls| == |s.calls| + 1 && k == |s.calls|)
    requires forall j :: 0 <= j < |s.calls| && j != k ==> s'.calls[j] == s.calls[j]
    requires k < |s'.calls| && HoldsOwn(s', s'.calls[k])
    ensures forall j :: 0 <= j < |s'.calls| ==> HoldsOwn(s', s'.calls[j])
  {
    forall j | 0 <= j < |s'.calls| ensures HoldsOwn(s', s'.calls[j]) {
      if j != k { assert HoldsOwn(s, s.calls[j]); }
    }
  }

  lemma CommitKept(s: State, k: nat, ok: bool)
    requires KernelOk(s) && Enabled(s, Commit(k, ok))
    ensures var s', out := DoCommit(s, k, ok), Section(s, s.calls[k].op, s.calls[k].pc.ctx, ok).1;
            && KernelOk(s') && (out == Refused ==> Attached(s') == Attached(s))
            && (out == Done ==> R.Result(Attached(s), WithOk(s.calls[k].op, ok)) == (Attached(s'), Done))
  {
    var op, c := s.calls[k].op, s.calls[k].pc.ctx;
    var s' := DoCommit(s, k, ok);
    CommitIsSection(s, k, ok);
    SectionAttached(s, s', c, WithOk(op, ok), ViewAt(s, op.fd, c));
    FdsKept(s, s', c, WithOk(op, ok), ViewAt(s, op.fd, c));
    CountKept(s, s', c, WithOk(op, ok), ViewAt(s, op.fd, c));
    HeldOn(s, s', k);
  }

  lemma CountKept(s: State, s': State, c: nat, a: R.Action, u: Table)
    requires ContextsOk(s) && ContextsOk(s') && TableOk(Attached(s)) && TableOk(Attached(s'))
    requires SectionOn(s, s', c, a, u) && s.pending == TotalBits(s.objects)
    ensures s'.pending == TotalBits(s'.objects)
  {
    if R.Result(u, a).1 == Refused {
      RefusedChangesNothing(u, a);
      assert s'.objects == s.objects;
    } else {
      DoneHoldsAttached(s, s', c, a, u);
      SectionIsLocal(Attached(s), u, a);
      ResultOk(Attached(s), a);
      BitsUpdate(Attached(s).slots, a.fd, s'.objects[c]);
      BitsUpdate(s.objects, c, s'.objects[c]);
    }
  }

  lemma FdsKept(s: State, s': State, c: nat, a: R.Action, u: Table)
    requires ContextsOk(s) && TableOk(Attached(s)) && SectionOn(s, s', c, a, u)
    requires ContextsOk(s') && TableOk(Attached(s'))
    requires R.Result(u, a).1 == Done ==> R.Result(u, a).0.slots[a.fd] == Attached(s').slots[a.fd]
    ensures |s'.objects| == |s.objects| && forall d :: 0 <= d < |s.objects| ==> s'.objects[d].fd == s.objects[d].fd
  {
    if R.Result(u, a).1 == Refused { RefusedChangesNothing(u, a); }
  }

  lemma GrowKept(s: State, k: nat)
    requires KernelOk(s) && Enabled(s, Grow(k))
    ensures var s' := Apply(s, Grow(k));
            && KernelOk(s') && |s'.objects| >= |s.objects|
            && Attached(s') == Attached(s).(slots := Resize(Attached(s).slots, |s'.objects|))
  {
    var s' := Apply(s, Grow(k));
    GrownContexts(s, s', GrowTo(s.calls[k].op.fd));
    if |s'.objects| > |s.objects| {
      ResizeUp(Attached(s), |s'.objects|);
      BitsExtend(s.objects, FreshSlots(|s.vec|, GrowTo(s.calls[k].op.fd)));
    } else {
      assert Resize(Attached(s).slots, |s.objects|) == Attached(s).slots;
      assert s'.objects == s.objects;
    }
    HeldOn(s, s', k);
  }

  lemma GrownContexts(s: State, s': State, size: nat)
    requires ContextsOk(s) && s'.objects == Resized(s, size).objects && s'.vec == Resized(s, size).vec
    requires s'.ptr == s.ptr && s'.kernel == s.kernel && s'.pending == s.pending && s'.log == s.log
    ensures ContextsOk(s') && |s'.objects| >= |s.objects| && |s'.vec| == size
    ensures forall c :: 0 <= c < |s.objects| ==> s'.objects[c] == s.objects[c]
    ensures Attached(s') == Attached(s).(slots := Resize(Attached(s).slots, |s'.objects|))
  {
    forall c | 0 <= c < |s'.objects| ensures s'.objects[c].fd <= c && AttachedOrUnused(s', c) {
      if c < |s.objects| { assert AttachedOrUnused(s, c); }
    }
    GrownAttached(s, s');
  }

  /** A new context's descriptor is attached to nothing, as every attached one is numbered below. */
  lemma GrownAttached(s: State, s': State)
    requires PtrsOk(s) && |s'.objects| >= |s.objects| && s'.ptr == s.ptr
    requires forall c :: 0 <= c < |s.objects| ==> s'.objects[c] == s.objects[c] && s.objects[c].fd <= c
    requires s'.kernel == s.kernel && s'.pending == s.pending && s'.log == s.log
    ensures PtrsOk(s') && Attached(s') == Attached(s).(slots := Resize(Attached(s).slots, |s'.objects|))
  {
    assert Attached(s').slots == Resize(Attached(s).slots, |s'.objects|);
  }

  /** Every step keeps the kernel's view in order; only a successful section changes what is registered. */
  lemma KernelStep(s: State, a: Action)
    requires KernelOk(s) && Enabled(s, a)
    ensures KernelOk(Apply(s, a))
  {
    match a
    case Commit(k, ok) => CommitKept(s, k, ok);
    case Grow(k) => GrowKept(s, k);
    case Lookup(k) => QuietKept(s, a, k);
    case Begin(_) => QuietKept(s, a, |s.calls|);
  }

  lemma QuietKept(s: State, a: Action, k: nat)
    requires KernelOk(s) && Enabled(s, a) && ((a.Lookup? && k == a.k) || (a.Begin? && k == |s.calls|))
    ensures KernelOk(Apply(s, a)) && Attached(Apply(s, a)) == Attached(s)
  {
    var s' := Apply(s, a);
    SameAttached(s, s');
    SameContexts(s, s');
    HeldOn(s, s', k);
  }
}
