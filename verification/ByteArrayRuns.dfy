/** Whole runs of buffer operations, on the flat buffer and on the chunked one. */
module ByteArrayRuns {
  import opened Common
  import opened Chunks
  import opened FlatBuffer
  import opened ByteArrays

  datatype Op =
    | Write(data: seq<byte>)
    | Read(count: nat)
    | Seek(target: nat)
    | Clear
    | Reserve(room: nat)   // getWriteBuffers

  /** What one operation does to the flat buffer; a failed one changes nothing. */
  ghost predicate FlatStep(base: nat, f: Flat, op: Op, f': Flat)
    requires base >= 1 && FlatOk(f)
  {
    match op
    case Write(d) => Written(f, base, d, f')
    case Read(n) => f' == f.(position := ReadBytes(f, n).position)
    case Seek(p) => f' == if p > |f.bytes| then f else Flat(f.bytes, p, Max(f.size, p))
    case Clear => base <= |f.bytes| && f' == Flat(f.bytes[..base], 0, 0)
    case Reserve(n) => Grown(f, base, n, f')
  }

  /** `trace[k]` is the buffer after `k` operations. */
  ghost predicate FlatRun(base: nat, ops: seq<Op>, trace: seq<Flat>) {
    && base >= 1 && |trace| == |ops| + 1
    && (forall k :: 0 <= k <= |ops| ==> FlatOk(trace[k]))
    && (forall k :: 0 <= k < |ops| ==> FlatStep(base, trace[k], ops[k], trace[k + 1]))
  }

  /** Any sequence of operations on the chunked buffer is a run of the flat one. */
  method Run(ba: ByteArray, ops: seq<Op>) returns (ghost trace: seq<Flat>)
    requires ba.Valid()
    modifies ba, ba.Repr
    ensures ba.Valid() && fresh(ba.Repr - old(ba.Repr))
    ensures FlatRun(ba.base, ops, trace) && trace[0] == old(ba.View()) && trace[|ops|] == ba.View()
  {
    trace := [ba.View()];
    ba.CursorNullIff();
    var i := 0;
    while i < |ops|
      invariant 0 <= i <= |ops| && ba.Valid() && fresh(ba.Repr - old(ba.Repr))
      invariant FlatRun(ba.base, ops[..i], trace) && trace[0] == old(ba.View()) && trace[i] == ba.View()
    {
      RunOne(ba, ops[i]);
      RunSnoc(ba.base, ops[..i], trace, ops[i], ba.View());
      assert ops[..i] + [ops[i]] == ops[..i + 1];
      trace := trace + [ba.View()];
      i := i + 1;
    }
    assert ops[..i] == ops;
  }

  method RunOne(ba: ByteArray, op: Op)
    requires ba.Valid()
    modifies ba, ba.Repr
    ensures ba.Valid() && fresh(ba.Repr - old(ba.Repr)) && FlatOk(ba.View())
    ensures FlatOk(old(ba.View())) && FlatStep(ba.base, old(ba.View()), op, ba.View())
  {
    ba.CursorNullIff();
    match op {
      case Write(d) => ba.Write(d);
      case Read(n) => var _ := ba.Read(n);
      case Seek(p) => var _ := ba.SetPosition(p);
      case Clear => ba.Clear();
      case Reserve(n) => var _, _ := ba.GetWriteBuffers(n);
    }
    ba.CursorNullIff();
  }

  lemma RunSnoc(base: nat, ops: seq<Op>, trace: seq<Flat>, op: Op, f: Flat)
    requires FlatRun(base, ops, trace) && FlatOk(f) && FlatStep(base, trace[|ops|], op, f)
    ensures FlatRun(base, ops + [op], trace + [f])
  {
    var ops', trace' := ops + [op], trace + [f];
    forall k | 0 <= k < |ops'| ensures FlatStep(base, trace'[k], ops'[k], trace'[k + 1]) {
      if k < |ops| { assert FlatStep(base, trace[k], ops[k], trace[k + 1]); }
    }
  }

  /** The byte last written at index `i` in the first `k` operations and not cut off since. */
  ghost function LastWritten(base: nat, ops: seq<Op>, trace: seq<Flat>, k: nat, i: nat): Option<byte>
    requires FlatRun(base, ops, trace) && k <= |ops|
  {
    if k == 0 then None else
      var was := LastWritten(base, ops, trace, k - 1, i);
      var p := trace[k - 1].position;
      match ops[k - 1]
      case Write(d) => if p <= i < p + |d| then Some(d[i - p]) else was
      case Clear => if i < base then was else None
      case _ => was
  }

  /** Over every run the buffer holds, at every index, the byte written there last. */
  lemma {:induction false} HoldsLastWritten(base: nat, ops: seq<Op>, trace: seq<Flat>, k: nat, i: nat)
    requires FlatRun(base, ops, trace) && k <= |ops| && LastWritten(base, ops, trace, k, i).Some?
    ensures i < |trace[k].bytes| && trace[k].bytes[i] == LastWritten(base, ops, trace, k, i).value
  {
    if k > 0 {
      var f, f' := trace[k - 1], trace[k];
      assert FlatStep(base, f, ops[k - 1], f');
      if ops[k - 1].Write? && f.position <= i < f.position + |ops[k - 1].data| {
        assert f'.bytes[i] == f'.bytes[f.position..f'.position][i - f.position];
      } else {
        HoldsLastWritten(base, ops, trace, k - 1, i);
      }
    }
  }

  /** So a successful read gives back what was written last, byte by byte. */
  lemma ReadsLastWritten(base: nat, ops: seq<Op>, trace: seq<Flat>, k: nat, j: nat)
    requires FlatRun(base, ops, trace) && k < |ops| && ops[k].Read? && j < ops[k].count
    requires ReadBytes(trace[k], ops[k].count).Got?
    requires LastWritten(base, ops, trace, k, trace[k].position + j).Some?
    ensures ReadBytes(trace[k], ops[k].count).value[j] == LastWritten(base, ops, trace, k, trace[k].position + j).value
  {
    HoldsLastWritten(base, ops, trace, k, trace[k].position + j);
  }
}
