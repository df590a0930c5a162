/**
 * The history of every registration over all runs in which lookup, growth and critical section are
 * separate steps. A growth may cut contexts in use off the vector; each registration still has one fate.
 */
module EventRaceFates {
  import opened EventTable
  import opened EventRace
  import R = EventRuns
  import opened EventAttached

  /** A state and what became of every registration so far. */
  datatype Traced = Traced(race: State, hist: R.History)

  /** The operation a critical section carries out, when it succeeds. */
  predicate Succeeds(s: State, k: nat, ok: bool)
    requires Enabled(s, Commit(k, ok))
  {
    Section(s, s.calls[k].op, s.calls[k].pc.ctx, ok).1 == Done
  }

  /** What the operation changed under the mutex of its context is what goes into the history. */
  function Noted(s: State, h: R.History, a: Action): R.History
    requires Enabled(s, a)
  {
    if a.Commit? && Succeeds(s, a.k, a.ok) then
      var op, c := s.calls[a.k].op, s.calls[a.k].pc.ctx;
      R.Record(h, WithOk(op, a.ok), ViewAt(s, op.fd, c), Section(s, op, c, a.ok).0)
    else h
  }

  function Step(t: Traced, a: Action): Traced
    requires Enabled(t.race, a)
  {
    Traced(Apply(t.race, a), Noted(t.race, t.hist, a))
  }

  function Start(): Traced { Traced(Init(), R.InitSystem().hist) }

  ghost predicate IsStep(t: Traced, a: Action, t': Traced) { Enabled(t.race, a) && t' == Step(t, a) }

  /** Any interleaving of the separate steps, late growths included. */
  ghost predicate IsRun(states: seq<Traced>, acts: seq<Action>) {
    && |states| == |acts| + 1 && states[0] == Start()
    && forall i :: 0 <= i < |acts| ==> IsStep(states[i], acts[i], states[i + 1])
  }

  ghost predicate Inv(t: Traced) {
    KernelOk(t.race) && R.HistOk(Attached(t.race), t.hist)
  }

  // ---------------------------------------------------------------- every step

  /** The history of a section depends on the slot it changed only. */
  lemma RecordIsLocal(h: R.History, a: R.Action, t: Table, t': Table, u: Table, u': Table)
    requires a.fd < |t.slots| && a.fd < |t'.slots| && a.fd < |u.slots| && a.fd < |u'.slots|
    requires t.slots[a.fd] == u.slots[a.fd] && t'.slots[a.fd] == u'.slots[a.fd]
    ensures R.Record(h, a, t, t') == R.Record(h, a, u, u')
  {}

  lemma WholeHist(t: Table, h: R.History, a: R.Action)
    requires TableOk(t) && R.HistOk(t, h) && R.Result(t, a).1 != Aborted
    ensures var r := R.Result(t, a);
            R.HistOk(r.0, if r.1 == Done then R.Record(h, a, t, r.0) else h)
  {
    R.InvStep(R.System(t, h), a);
  }

  lemma SectionHist(s: State, s': State, h: R.History, c: nat, a: R.Action, u: Table)
    requires ContextsOk(s) && TableOk(Attached(s)) && SectionOn(s, s', c, a, u) && R.HistOk(Attached(s), h)
    ensures PtrsOk(s')
    ensures R.HistOk(Attached(s'), if R.Result(u, a).1 == Done then R.Record(h, a, u, R.Result(u, a).0) else h)
  {
    SectionAttached(s, s', c, a, u);
    if R.Result(u, a).1 == Done {
      WholeHist(Attached(s), h, a);
      RecordIsLocal(h, a, Attached(s), Attached(s'), u, R.Result(u, a).0);
    }
  }

  lemma CommitHist(t: Traced, k: nat, ok: bool)
    requires Inv(t) && Enabled(t.race, Commit(k, ok))
    ensures PtrsOk(DoCommit(t.race, k, ok))
    ensures R.HistOk(Attached(DoCommit(t.race, k, ok)), Noted(t.race, t.hist, Commit(k, ok)))
  {
    var op, c := t.race.calls[k].op, t.race.calls[k].pc.ctx;
    CommitIsSection(t.race, k, ok);
    SectionHist(t.race, DoCommit(t.race, k, ok), t.hist, c, WithOk(op, ok), ViewAt(t.race, op.fd, c));
  }

  lemma GrowHist(t: Traced, k: nat)
    requires Inv(t) && Enabled(t.race, Grow(k))
    ensures Inv(Step(t, Grow(k)))
  {
    GrowKept(t.race, k);
    R.ResizedHist(Attached(t.race), t.hist, |Apply(t.race, Grow(k)).objects|);
  }

  lemma InvStep(t: Traced, a: Action)
    requires Inv(t) && Enabled(t.race, a)
    ensures Inv(Step(t, a))
  {
    match a
    case Commit(k, ok) =>
      CommitKept(t.race, k, ok);
      CommitHist(t, k, ok);
    case Grow(k) => GrowHist(t, k);
    case Lookup(k) => QuietKept(t.race, a, k);
    case Begin(_) => QuietKept(t.race, a, |t.race.calls|);
  }

  lemma InitInv()
    ensures Inv(Start())
  {
    InitKernel();
    R.InitInv();
  }

  lemma InvNext(states: seq<Traced>, acts: seq<Action>, i: nat)
    requires IsRun(states, acts) && 0 < i < |states| && Inv(states[i - 1])
    ensures Inv(states[i])
  {
    var j := i - 1;
    assert IsStep(states[j], acts[j], states[j + 1]);
    InvStep(states[j], acts[j]);
  }

  lemma {:induction false} RunInv(states: seq<Traced>, acts: seq<Action>, i: nat)
    requires IsRun(states, acts) && i < |states|
    ensures Inv(states[i])
  {
    if i == 0 {
      InitInv();
    } else {
      RunInv(states, acts, i - 1);
      InvNext(states, acts, i);
    }
  }

  // ---------------------------------------------------------------- what holds over every run

  /**
   * The wait is in the context that the kernel's entry names, its bit is in the kernel's set, and no
   * other context of the descriptor holds any: a report finds it, whatever the vector has.
   */
  ghost predicate Waits(s: State, r: R.Registration) {
    && r.fd in s.ptr && s.ptr[r.fd] < |s.objects| && s.objects[s.ptr[r.fd]].fd == r.fd
    && R.Holds(s.objects[s.ptr[r.fd]], r) && r.fd in s.kernel && r.event in s.kernel[r.fd]
    && forall c :: 0 <= c < |s.objects| && s.objects[c].fd == r.fd && s.objects[c].events != {} ==> c == s.ptr[r.fd]
  }

  /** Registration `j` still waits, or was removed and never scheduled, or was scheduled once with its own handle. */
  ghost predicate OneFate(s: State, h: R.History, j: nat) {
    && j < |h.fate| == |h.issued| && |h.tokens| == |s.log|
    && (h.fate[j] == R.Registered ==> Waits(s, h.issued[j]) && j !in h.tokens)
    && (h.fate[j] == R.Removed ==> j !in h.tokens)
    && (h.fate[j].Given? ==>
          && h.fate[j].k < |s.log| && h.tokens[h.fate[j].k] == j
          && s.log[h.fate[j].k] == Handed(h.issued[j].scheduler, h.issued[j].handle)
          && forall k :: 0 <= k < |h.tokens| && h.tokens[k] == j ==> k == h.fate[j].k)
  }

  lemma HeldWaits(s: State, r: R.Registration)
    requires KernelOk(s) && r.fd < |s.objects| && R.Holds(Attached(s).slots[r.fd], r)
    ensures Waits(s, r)
  {
    assert Attached(s).slots[r.fd] == AttachedAt(s, r.fd);
    forall c | 0 <= c < |s.objects| && s.objects[c].fd == r.fd && s.objects[c].events != {} ensures c == s.ptr[r.fd] {
      assert AttachedOrUnused(s, c);
    }
  }

  /** Each successful addEvent has exactly one of the three fates, in every run. */
  lemma ExactlyOneFate(states: seq<Traced>, acts: seq<Action>, i: nat, j: nat)
    requires IsRun(states, acts) && i < |states| && j < |states[i].hist.issued|
    ensures OneFate(states[i].race, states[i].hist, j)
  {
    RunInv(states, acts, i);
    FateIn(states[i], j);
  }

  lemma FateIn(t: Traced, j: nat)
    requires Inv(t) && j < |t.hist.issued|
    ensures OneFate(t.race, t.hist, j)
  {
    assert R.OneFate(Attached(t.race), t.hist, j);
    if t.hist.fate[j] == R.Registered { HeldWaits(t.race, t.hist.issued[j]); }
  }

  /** issued = bits set in all contexts, in the vector or not, + scheduled + removed. */
  lemma Conservation(states: seq<Traced>, acts: seq<Action>, i: nat)
    requires IsRun(states, acts) && i < |states|
    ensures |states[i].hist.issued| ==
            TotalBits(states[i].race.objects) + |states[i].race.log| + R.RemovedCount(states[i].hist.fate)
    ensures states[i].race.pending == TotalBits(states[i].race.objects)
  {
    RunInv(states, acts, i);
  }

  lemma FateStep(t: Traced, a: Action, j: nat)
    requires R.OwnersRegistered(t.hist) && Enabled(t.race, a)
    requires j < |t.hist.fate| && t.hist.fate[j] != R.Registered
    ensures R.SettledAndKept(t.hist, Step(t, a).hist, j)
  {
    if a.Commit? {
      var op, c := t.race.calls[a.k].op, t.race.calls[a.k].pc.ctx;
      R.RecordStable(t.hist, WithOk(op, a.ok), ViewAt(t.race, op.fd, c), Section(t.race, op, c, a.ok).0, j);
    }
  }

  lemma FateNext(states: seq<Traced>, acts: seq<Action>, i: nat, j: nat)
    requires IsRun(states, acts) && 0 < i < |states|
    requires j < |states[i - 1].hist.fate| && states[i - 1].hist.fate[j] != R.Registered
    ensures R.SettledAndKept(states[i - 1].hist, states[i].hist, j)
  {
    var k := i - 1;
    OwnersAlong(states, acts, k);
    assert IsStep(states[k], acts[k], states[k + 1]);
    FateStep(states[k], acts[k], j);
  }

  lemma OwnersAlong(states: seq<Traced>, acts: seq<Action>, i: nat)
    requires IsRun(states, acts) && i < |states|
    ensures R.OwnersRegistered(states[i].hist)
  {
    RunInv(states, acts, i);
    R.InvOwners(R.System(Attached(states[i].race), states[i].hist));
  }

  lemma KeptOn(h: R.History, h': R.History, h'': R.History, j: nat)
    requires R.SettledAndKept(h, h', j) && R.SettledAndKept(h', h'', j)
    ensures R.SettledAndKept(h, h'', j)
  {}

  /** A registration that was removed or scheduled stays so. */
  lemma {:induction false} FateIsFinal(states: seq<Traced>, acts: seq<Action>, i: nat, i': nat, j: nat)
    requires IsRun(states, acts) && i <= i' < |states|
    requires |states[i].hist.fate| == |states[i].hist.issued|
    requires j < |states[i].hist.fate| && states[i].hist.fate[j] != R.Registered
    ensures R.SettledAndKept(states[i].hist, states[i'].hist, j)
    decreases i'
  {
    if i == i' {
      assert states[i'] == states[i];
    } else {
      FateIsFinal(states, acts, i, i' - 1, j);
      FateNext(states, acts, i', j);
      KeptOn(states[i].hist, states[i' - 1].hist, states[i'].hist, j);
    }
  }
}
