/** What the varint reader makes of any bytes, whoever wrote them. */
module VarintInput {
  import opened Common
  import opened Chunks
  import opened Codec
  import opened FlatBuffer

  /** From bit `shift` on the reader stops right behind `d`: at an unmarked byte, or when the width is used up. */
  predicate StopsBehind(d: seq<byte>, bits: nat, shift: nat) {
    && d != [] && (forall i :: 0 <= i < |d| - 1 ==> d[i] >= 128)
    && shift + 7 * (|d| - 1) < bits && (d[|d| - 1] < 128 || shift + 7 * |d| >= bits)
  }

  lemma MultipleDrops(v: int, q: int, m: nat)
    requires m >= 1
    ensures (v + q * m) % m == v % m
  {
    assert v + q * m == (v / m + q) * m + v % m;
    RemainderIs(v + q * m, v / m + q, v % m, m);
  }

  /** Cutting one summand to the width does not change the sum within it. */
  lemma CutSummand(a: int, b: int, m: nat)
    requires m >= 1
    ensures (a + b % m) % m == (a + b) % m
  {
    assert a + b == a + b % m + b / m * m;
    MultipleDrops(a + b % m, b / m, m);
  }

  lemma GroupsUnfold(d: seq<byte>, p: nat)
    requires d != []
    ensures FromGroups(d) * p == d[0] % 128 * p + FromGroups(d[1..]) * (p * 128)
  {
    var x, y := d[0] % 128, FromGroups(d[1..]);
    Distribute(x, y * 128, p);
    Regroup(y, 128, p);
  }

  /** The value read is what the seven-bit groups spell, cut to the width. */
  lemma {:induction false} VarintReads(f: Flat, bits: nat, shift: nat, acc: nat, d: seq<byte>)
    requires acc < Pow2(shift) && shift < bits && acc < Pow2(bits) && StopsBehind(d, bits, shift) && Ahead(f, d)
    ensures ReadVarint(f, bits, shift, acc) ==
            Got((acc + FromGroups(d) * Pow2(shift)) % Pow2(bits), f.position + |d|)
    decreases |d|
  {
    var m, p, x := Pow2(bits), Pow2(shift), d[0] % 128;
    var acc' := OrShifted(acc, x, shift, bits);
    FirstByte(f, d);
    GroupsUnfold(d, p);
    CutSummand(acc, x * p, m);
    RemainderIs(acc', 0, acc', m);
    if |d| == 1 {
      assert d[1..] == [];
      if d[0] >= 128 { assert shift + 7 >= bits; }
    } else {
      Pow2Sum(shift, 7);
      assert Pow2(7) == 128;
      var rest := FromGroups(d[1..]) * (p * 128);
      VarintReads(f.(position := f.position + 1), bits, shift + 7, acc', d[1..]);
      CutSummand(acc + rest, x * p, m);
    }
  }

  lemma FirstByte(f: Flat, d: seq<byte>)
    requires d != [] && Ahead(f, d)
    ensures ReadBytes(f, 1) == Got([d[0]], f.position + 1) && Ahead(f.(position := f.position + 1), d[1..])
  {
    AheadParts(f, [d[0]], d[1..]);
    assert [d[0]] + d[1..] == d;
  }

  /** Marked bytes up to the end of what is readable, with width left: the exception, at the end. */
  lemma {:induction false} VarintCutOff(f: Flat, bits: nat, shift: nat, acc: nat, d: seq<byte>)
    requires acc < Pow2(shift) && acc < Pow2(bits) && shift + 7 * |d| < bits && Ahead(f, d)
    requires f.position + |d| == f.size && forall i :: 0 <= i < |d| ==> d[i] >= 128
    ensures ReadVarint(f, bits, shift, acc) == Failed(OutOfRange, f.size)
    decreases |d|
  {
    if d != [] {
      FirstByte(f, d);
      VarintCutOff(f.(position := f.position + 1), bits, shift + 7, OrShifted(acc, d[0] % 128, shift, bits), d[1..]);
    }
  }

  /** A prefix that counts more bytes than are left: the exception, with the prefix already consumed. */
  lemma TextCutOff(f: Flat, prefix: seq<byte>, n: nat, length: Reading<nat>)
    requires Ahead(f, prefix) && length == Got(n, f.position + |prefix|) && f.position + |prefix| + n > f.size
    ensures ReadText(f, length) == Failed(OutOfRange, f.position + |prefix|)
  {}
}
