/** The byte array as its users see it: one flat run of bytes with a position and a size. */
module FlatBuffer {
  import opened Common
  import opened Chunks
  import opened Codec

  /** `|bytes|` is the capacity; bytes at or past `size` hold no particular value. */
  datatype Flat = Flat(bytes: seq<byte>, position: nat, size: nat)

  predicate FlatOk(f: Flat) {
    f.position <= f.size <= |f.bytes|
  }

  function Max(a: nat, b: nat): nat {
    if a >= b then a else b
  }

  // ---------------------------------------------------------------- writing

  /** The capacity once `n` bytes fit after the position. */
  function NewCapacity(f: Flat, base: nat, n: nat): nat
    requires base >= 1
  {
    if f.position + n <= |f.bytes| then |f.bytes| else RoundUp(f.position + n, base)
  }

  /** A whole number of chunks, enough, and the fewest that are. */
  lemma CapacityIsLeast(f: Flat, base: nat, n: nat, q: nat)
    requires base >= 1 && ChunkOffset(|f.bytes|, base) == 0
    ensures NewCapacity(f, base, n) >= f.position + n && NewCapacity(f, base, n) >= |f.bytes|
    ensures NewCapacity(f, base, n) == Needed(NewCapacity(f, base, n), base) * base
    ensures q * base >= f.position + n && q * base >= |f.bytes| ==> NewCapacity(f, base, n) <= q * base
  {
    if f.position + n <= |f.bytes| {
      WholeChunks(|f.bytes|, base);
    } else {
      NeededTimes(f.position + n, base);
      WholeNeeded(Needed(f.position + n, base), base);
      if q * base >= f.position + n { RoundUpIsLeast(f.position + n, base, q); }
    }
  }

  lemma {:induction false} WholeChunks(c: nat, base: nat)
    requires base >= 1 && ChunkOffset(c, base) == 0
    ensures Needed(c, base) * base == c
    decreases c
  {
    if c >= base {
      WholeChunks(c - base, base);
      NeededTimes(c, base);
      NeededTimes(c - base, base);
    }
  }

  lemma {:induction false} WholeNeeded(k: nat, base: nat)
    requires base >= 1
    ensures k * base >= 0 && Needed(k * base, base) == k
  {
    if k > 0 {
      WholeNeeded(k - 1, base);
      assert k * base == (k - 1) * base + base;
    }
  }

  /** Room was made for `n` bytes: nothing a reader could see has changed. */
  predicate Grown(f: Flat, base: nat, n: nat, f': Flat)
    requires base >= 1
  {
    f'.position == f.position && f'.size == f.size &&
    f.bytes <= f'.bytes && |f'.bytes| == NewCapacity(f, base, n)
  }

  /** `d` was written at the position and no other byte changed. */
  ghost predicate Written(f: Flat, base: nat, d: seq<byte>, f': Flat)
    requires base >= 1
  {
    && f'.position == f.position + |d|
    && f'.size == Max(f.size, f.position + |d|)
    && |f'.bytes| == NewCapacity(f, base, |d|)
    && f'.position <= |f'.bytes|
    && f'.bytes[f.position..f'.position] == d
    && (forall i :: 0 <= i < |f.bytes| && !(f.position <= i < f'.position) ==>
          i < |f'.bytes| && f'.bytes[i] == f.bytes[i])
  }

  lemma GrowThenSplice(f: Flat, base: nat, d: seq<byte>, g: Flat, f': Flat)
    requires base >= 1 && FlatOk(f) && Grown(f, base, |d|, g)
    requires f'.position == f.position + |d| <= |g.bytes|
    requires f'.size == Max(f.size, f'.position)
    requires f'.bytes == Splice(g.bytes, f.position, d)
    ensures Written(f, base, d, f')
  {
    forall i | 0 <= i < |f.bytes| && !(f.position <= i < f'.position)
      ensures i < |f'.bytes| && f'.bytes[i] == f.bytes[i]
    {
      assert g.bytes[i] == f.bytes[i];
    }
  }

  lemma RoomIsThere(f: Flat, base: nat, n: nat, f': Flat)
    requires base >= 1 && Grown(f, base, n, f')
    ensures f'.position + n <= |f'.bytes|
  {}

  /** Making room twice is making room once. */
  lemma RoomTwice(c: nat, base: nat, q: nat, r: nat)
    requires base >= 1 && q <= r
    ensures var c1 := if q <= c then c else RoundUp(q, base);
            (if r <= c1 then c1 else RoundUp(r, base)) == if r <= c then c else RoundUp(r, base)
  {
    if q > c && r <= RoundUp(q, base) {
      RoundUpTwice(q, r, base);
    }
  }

  lemma SlicesJoin(s: seq<byte>, p: nat, d: seq<byte>, e: seq<byte>)
    requires p + |d| + |e| <= |s|
    requires s[p..p + |d|] == d && s[p + |d|..p + |d| + |e|] == e
    ensures s[p..p + |d| + |e|] == d + e
  {}

  /** Two writes in a row are one write of both. */
  lemma WritesCompose(f: Flat, base: nat, d: seq<byte>, f1: Flat, e: seq<byte>, f2: Flat)
    requires base >= 1 && FlatOk(f)
    requires Written(f, base, d, f1) && Written(f1, base, e, f2)
    ensures Written(f, base, d + e, f2)
  {
    var p, q, r := f.position, f1.position, f2.position;
    RoomTwice(|f.bytes|, base, q, r);
    assert |d + e| == |d| + |e|;
    forall i | p <= i < q ensures f2.bytes[i] == d[i - p] {
      assert f2.bytes[i] == f1.bytes[i] == f1.bytes[p..q][i - p];
    }
    assert f2.bytes[p..q] == d;
    SlicesJoin(f2.bytes, p, d, e);
  }

  /** A position past the capacity is refused; one past the size raises the size. */
  function MovedTo(f: Flat, p: nat): Option<Flat> {
    if p > |f.bytes| then None else Some(Flat(f.bytes, p, Max(f.size, p)))
  }

  // ---------------------------------------------------------------- reading

  datatype Failure =
    | OutOfRange   // the exception of `read`
    | NullCursor   // zero bytes read at the end of capacity: the cursor is dereferenced and is null

  datatype Reading<+T> = Got(value: T, position: nat) | Failed(why: Failure, position: nat)

  function ReadBytes(f: Flat, n: nat): (r: Reading<seq<byte>>)
    requires FlatOk(f)
    ensures r.position <= f.size
  {
    if n > f.size - f.position then Failed(OutOfRange, f.position)
    else if n == 0 && f.position == |f.bytes| then Failed(NullCursor, f.position)
    else Got(f.bytes[f.position..f.position + n], f.position + n)
  }

  const TWO64: nat := 0x1_0000_0000_0000_0000

  /**
   * The positional read: it checks against `p`, with a subtraction that wraps, and then reads at the
   * offset of `p` inside the chunk of the position.
   */
  function ReadAtCursor(f: Flat, base: nat, n: nat, p: nat): Reading<seq<byte>>
    requires FlatOk(f) && base >= 1 && p < TWO64
  {
    IndexSplitsAt(f.position, base);
    var q := f.position - ChunkOffset(f.position, base) + ChunkOffset(p, base);
    if n > (if p <= f.size then f.size - p else TWO64 + f.size - p) then Failed(OutOfRange, p)
    else if f.position == |f.bytes| || q + n > |f.bytes| then Failed(NullCursor, p)
    else Got(f.bytes[q..q + n], p)
  }

  /** What a caller expects of it: the bytes at `p`, or the exception when they are not all readable. */
  function RightAt(f: Flat, n: nat, p: nat): Reading<seq<byte>>
    requires FlatOk(f)
  {
    if p > f.size || n > f.size - p then Failed(OutOfRange, p) else Got(f.bytes[p..p + n], p)
  }

  /** Everything but the contents of the buffer. */
  predicate Shaped(f: Flat, capacity: nat, position: nat, size: nat) {
    |f.bytes| == capacity && f.position == position && f.size == size
  }

  /** Within the size: refused, or the cursor is not null and there is nothing to read or `p` is in its chunk. */
  predicate ReadAtWorks(base: nat, capacity: nat, position: nat, size: nat, n: nat, p: nat)
    requires base >= 1
  {
    if p <= size then
      n > size - p || (position < capacity && (n == 0 || ChunkIndex(p, base) == ChunkIndex(position, base)))
    else n > TWO64 + size - p   // the subtraction has wrapped
  }

  /** The positional read is right, whatever the buffer holds, if and only if that condition holds. */
  lemma ReadAtIff(base: nat, capacity: nat, position: nat, size: nat, n: nat, p: nat)
    requires base >= 1 && position <= size <= capacity && ChunkOffset(capacity, base) == 0 && p < TWO64
    ensures (forall f :: Shaped(f, capacity, position, size) ==> ReadAtCursor(f, base, n, p) == RightAt(f, n, p)) <==>
            ReadAtWorks(base, capacity, position, size, n, p)
  {
    if ReadAtWorks(base, capacity, position, size, n, p) {
      forall f | Shaped(f, capacity, position, size) ensures ReadAtCursor(f, base, n, p) == RightAt(f, n, p) {
        ReadAtIsRight(f, base, n, p);
      }
    } else {
      var f := Flat(seq(capacity, i => if i == p then 1 else 0), position, size);
      ReadAtIsWrong(f, base, n, p);
      assert Shaped(f, capacity, position, size);
    }
  }

  lemma ReadAtIsRight(f: Flat, base: nat, n: nat, p: nat)
    requires FlatOk(f) && base >= 1 && p < TWO64 && ChunkOffset(|f.bytes|, base) == 0
    requires ReadAtWorks(base, |f.bytes|, f.position, f.size, n, p)
    ensures ReadAtCursor(f, base, n, p) == RightAt(f, n, p)
  {
    if p <= f.size && n <= f.size - p {
      if n == 0 {
        ChunkEnds(f.position, |f.bytes|, base);
        var q := f.position - ChunkOffset(f.position, base) + ChunkOffset(p, base);
        assert f.bytes[q..q + n] == [] == f.bytes[p..p + n];
      } else {
        SamePlace(p, f.position, base);
      }
    }
  }

  /** With a byte at `p` like no other, reading elsewhere shows. */
  lemma ReadAtIsWrong(f: Flat, base: nat, n: nat, p: nat)
    requires FlatOk(f) && base >= 1 && p < TWO64 && !ReadAtWorks(base, |f.bytes|, f.position, f.size, n, p)
    requires forall i :: 0 <= i < |f.bytes| ==> f.bytes[i] == if i == p then 1 else 0
    ensures ReadAtCursor(f, base, n, p) != RightAt(f, n, p)
  {
    IndexSplitsAt(f.position, base);
    SameChunk(f.position, base, ChunkOffset(p, base));
    var r := ReadAtCursor(f, base, n, p);
    if p <= f.size && r.Got? {
      assert r.value[0] != f.bytes[p..p + n][0];
    }
  }

  /** Failing inputs: past the size in the cursor's chunk, in an earlier chunk, and past the capacity. */
  lemma ReadAtFails(a: byte, b: byte, c: byte, d: byte)
    ensures ReadAtCursor(Flat([a, b, c, d], 0, 1), 4, 1, 2) == Got([c], 2)
            && RightAt(Flat([a, b, c, d], 0, 1), 1, 2) == Failed(OutOfRange, 2)
    ensures ReadAtCursor(Flat([a, b], 1, 2), 1, 1, 0) == Got([b], 0)
            && RightAt(Flat([a, b], 1, 2), 1, 0) == Got([a], 0)
    ensures ReadAtCursor(Flat([a, b], 0, 1), 2, 1, 3) == Got([b], 3)
            && RightAt(Flat([a, b], 0, 1), 1, 3) == Failed(OutOfRange, 3)
  {
    assert [a, b, c, d][2..3] == [c];
    assert [a, b][1..2] == [b] && [a, b][0..1] == [a];
    assert ChunkOffset(1, 1) == ChunkOffset(0, 1) == 0 && ChunkOffset(3, 2) == ChunkOffset(1, 2) == 1;
  }

  /** What is left of the chunk of a position lies before a whole number of chunks. */
  lemma {:induction false} ChunkEnds(p: nat, capacity: nat, base: nat)
    requires base >= 1 && p < capacity && ChunkOffset(capacity, base) == 0
    ensures p >= ChunkOffset(p, base) && p - ChunkOffset(p, base) + base <= capacity
    decreases p
  {
    if p >= base { ChunkEnds(p - base, capacity - base, base); }
  }

  function ReadFixed(f: Flat, hostLittle: bool, w: nat): (r: Reading<nat>)
    requires FlatOk(f)
    ensures r.position <= f.size
  {
    match ReadBytes(f, w)
    case Got(s, p) => Got(LoadFixed(hostLittle, false, s), p)
    case Failed(why, p) => Failed(why, p)
  }

  /** The decoding loop from bit `shift` on: one byte at a time, at most up to `bits`. */
  function ReadVarint(f: Flat, bits: nat, shift: nat, acc: nat): (r: Reading<nat>)
    requires FlatOk(f) && acc < Pow2(shift) && acc < Pow2(bits)
    ensures r.position <= f.size
    ensures r.Got? ==> r.value < Pow2(bits)
    decreases if shift < bits then bits - shift else 0
  {
    if shift >= bits then Got(acc, f.position)
    else match ReadBytes(f, 1)
    case Failed(why, p) => Failed(why, p)
    case Got(s, p) =>
      var acc' := OrShifted(acc, s[0] % 128, shift, bits);
      if s[0] < 128 then Got(acc', p) else ReadVarint(f.(position := p), bits, shift + 7, acc')
  }

  function ReadText(f: Flat, length: Reading<nat>): (r: Reading<Value>)
    requires FlatOk(f) && length.position <= f.size
    ensures r.position <= f.size
  {
    match length
    case Failed(why, p) => Failed(why, p)
    case Got(n, p) =>
      match ReadBytes(f.(position := p), n)
      case Got(s, q) => Got(Str(s), q)
      case Failed(why, q) => Failed(why, q)
  }

  function ReadValue(f: Flat, hostLittle: bool, kind: Kind): (r: Reading<Value>)
    requires FlatOk(f)
    ensures r.position <= f.size
  {
    match kind
    case Text(w) => ReadText(f, ReadFixed(f, hostLittle, w))
    case TextVar => ReadText(f, ReadVarint(f, 64, 0, 0))
    case _ =>
      match ReadCode(f, hostLittle, kind)
      case Got(u, p) => Got(Num(FromCode(kind, u)), p)
      case Failed(why, p) => Failed(why, p)
  }

  /** The unsigned pattern that stands for a number of this kind. */
  function ReadCode(f: Flat, hostLittle: bool, kind: Kind): (r: Reading<nat>)
    requires FlatOk(f) && !kind.Text? && !kind.TextVar?
    ensures r.position <= f.size
    ensures r.Got? && kind.Zig? ==> r.value < Pow2(kind.bits)
  {
    if kind.Unsigned? || kind.SignedInt? then ReadFixed(f, hostLittle, kind.w)
    else ReadVarint(f, kind.bits, 0, 0)
  }

  function FromCode(kind: Kind, u: nat): int
    requires kind.Zig? ==> u < Pow2(kind.bits)
  {
    match kind
    case SignedInt(w) => Signed(Modulus(w), u)
    case Zig(bits) => DecodeZigzag(Pow2(bits), u)
    case _ => u
  }

  datatype Readings = Readings(values: seq<Value>, failure: Option<Failure>, position: nat)

  /** Reads one value of each kind and stops at the first failure. */
  function ReadAll(f: Flat, hostLittle: bool, kinds: seq<Kind>): Readings
    requires FlatOk(f)
    decreases |kinds|
  {
    if kinds == [] then Readings([], None, f.position)
    else match ReadValue(f, hostLittle, kinds[0])
    case Failed(why, p) => Readings([], Some(why), p)
    case Got(v, p) =>
      var rest := ReadAll(f.(position := p), hostLittle, kinds[1..]);
      Readings([v] + rest.values, rest.failure, rest.position)
  }

  // ---------------------------------------------------------------- round trip

  /** The bytes `d` lie at the position, inside the size. */
  predicate Ahead(f: Flat, d: seq<byte>) {
    f.position + |d| <= f.size <= |f.bytes| && f.bytes[f.position..f.position + |d|] == d
  }

  lemma AheadParts(f: Flat, d: seq<byte>, e: seq<byte>)
    requires Ahead(f, d + e)
    ensures Ahead(f, d) && Ahead(f.(position := f.position + |d|), e)
  {
    var p := f.position;
    assert f.bytes[p..p + |d|] == (d + e)[..|d|] == d;
    assert f.bytes[p + |d|..p + |d| + |e|] == (d + e)[|d|..] == e;
  }

  lemma FixedAhead(f: Flat, hostLittle: bool, w: nat, v: nat)
    requires w >= 1 && v < Modulus(w) && Ahead(f, BigBytes(w, v))
    ensures ReadFixed(f, hostLittle, w) == Got(v, f.position + w)
  {
    StoredOrder(hostLittle, false, w, v);
    FixedRoundTrip(hostLittle, hostLittle, false, w, v);
  }

  lemma {:induction false} Pow2Order(i: nat, j: nat)
    requires i <= j
    ensures Pow2(i) <= Pow2(j)
  {
    if i < j { Pow2Order(i, j - 1); }
  }

  /** One turn of the decoding loop: the low seven bits of `v` are added in place. */
  lemma VarintTurn(acc: nat, v: nat, shift: nat, bits: nat)
    requires acc < Pow2(shift) && shift < bits && v * Pow2(shift) < Pow2(bits)
    ensures OrShifted(acc, v % 128, shift, bits) == acc + v % 128 * Pow2(shift)
    ensures v * Pow2(shift) == v % 128 * Pow2(shift) + v / 128 * Pow2(shift + 7)
  {
    var p := Pow2(shift);
    Pow2Sum(shift, 7);
    assert Pow2(7) == 128;
    var low, high := v % 128, v / 128;
    LowAndHigh(v, p);
    RemainderIs(low * p, 0, low * p, Pow2(bits));
  }

  lemma LowAndHigh(v: nat, p: nat)
    ensures v * p == v % 128 * p + v / 128 * (p * 128)
    ensures 0 <= v % 128 * p <= v * p
  {
    var low, high := v % 128, v / 128;
    assert v == low + high * 128;
    assert (low + high * 128) * p == low * p + high * (p * 128);
    assert high * (p * 128) >= 0;
  }

  lemma ProductBound(v: nat, p: nat)
    requires v >= 128
    ensures v * p >= p * 128
  {
    assert (v - 128) * p >= 0;
  }

  /** A value with a further byte leaves a further turn. */
  lemma VarintGoesOn(v: nat, shift: nat, bits: nat)
    requires v >= 128 && v * Pow2(shift) < Pow2(bits)
    ensures shift + 7 < bits
  {
    Pow2Sum(shift, 7);
    assert Pow2(7) == 128;
    ProductBound(v, Pow2(shift));
    if shift + 7 >= bits { Pow2Order(bits, shift + 7); }
  }

  lemma {:induction false} VarintAhead(f: Flat, bits: nat, shift: nat, acc: nat, v: nat)
    requires acc < Pow2(shift) && shift < bits && acc < Pow2(bits) && v * Pow2(shift) < Pow2(bits)
    requires Ahead(f, EncodeVarint(v))
    ensures ReadVarint(f, bits, shift, acc) == Got(acc + v * Pow2(shift), f.position + |EncodeVarint(v)|)
    decreases v
  {
    var d := EncodeVarint(v);
    var p := f.position;
    AheadParts(f, [d[0]], d[1..]);
    assert [d[0]] + d[1..] == d;
    assert f.bytes[p..p + 1] == [d[0]];
    assert d[0] % 128 == v % 128;
    VarintTurn(acc, v, shift, bits);
    if v >= 128 {
      VarintGoesOn(v, shift, bits);
      VarintAhead(f.(position := p + 1), bits, shift + 7, OrShifted(acc, v % 128, shift, bits), v / 128);
    } else {
      assert v / 128 == 0;
    }
  }

  lemma VarintAheadWhole(f: Flat, bits: nat, v: nat)
    requires bits >= 1 && v < Pow2(bits) && Ahead(f, EncodeVarint(v))
    ensures ReadVarint(f, bits, 0, 0) == Got(v, f.position + |EncodeVarint(v)|)
  {
    assert Pow2(0) == 1 && v * Pow2(0) == v;
    VarintAhead(f, bits, 0, 0, v);
  }

  /** The first `n` bytes of `s`, behind the prefix that counts them. */
  lemma TextAhead(f: Flat, prefix: seq<byte>, s: seq<byte>, n: nat, length: Reading<nat>)
    requires Ahead(f, prefix + s) && n <= |s| && length == Got(n, f.position + |prefix|)
    ensures ReadText(f, length) == Part(f, |prefix|, s, n)
  {
    AheadParts(f, prefix, s);
    SliceStart(f.bytes, f.position + |prefix|, |s|, n);
  }

  lemma SliceStart(s: seq<byte>, p: nat, m: nat, n: nat)
    requires n <= m && p + m <= |s|
    ensures s[p..p + m][..n] == s[p..p + n]
  {}

  function Part(f: Flat, prefix: nat, s: seq<byte>, n: nat): Reading<Value>
    requires n <= |s|
  {
    var p := f.position + prefix;
    if n == 0 && p == |f.bytes| then Failed(NullCursor, p) else Got(Str(s[..n]), p + n)
  }

  /** An empty string whose last prefix byte is the last byte of capacity cannot be read back. */
  predicate Unreadable(t: Typed, end: nat, capacity: nat) {
    t.value == Str([]) && end == capacity
  }

  lemma NumberAhead(f: Flat, hostLittle: bool, t: Typed)
    requires Fits(t) && t.value.Num? && Ahead(f, Encode(t))
    ensures ReadValue(f, hostLittle, t.kind) == Got(t.value, f.position + |Encode(t)|)
  {
    match t.kind
    case Unsigned(w) => FixedAhead(f, hostLittle, w, t.value.n);
    case SignedInt(w) =>
      ModulusEven(w);
      SignedRoundTrip(Modulus(w), t.value.n);
      FixedAhead(f, hostLittle, w, Pattern(Modulus(w), t.value.n));
    case Var(bits) => VarintAheadWhole(f, bits, t.value.n);
    case Zig(bits) =>
      Pow2Even(bits);
      ZigzagRoundTrip(Pow2(bits), t.value.n);
      VarintAheadWhole(f, bits, EncodeZigzag(Pow2(bits), t.value.n));
  }

  lemma FixedTextAhead(f: Flat, hostLittle: bool, w: nat, s: seq<byte>, n: nat)
    requires w >= 1 && n < Modulus(w) && n <= |s| && Ahead(f, BigBytes(w, n) + s)
    ensures ReadText(f, ReadFixed(f, hostLittle, w)) == Part(f, w, s, n)
  {
    AheadParts(f, BigBytes(w, n), s);
    FixedAhead(f, hostLittle, w, n);
    TextAhead(f, BigBytes(w, n), s, n, ReadFixed(f, hostLittle, w));
  }

  lemma VarTextAhead(f: Flat, bits: nat, s: seq<byte>, n: nat)
    requires bits >= 1 && n < Pow2(bits) && n <= |s| && Ahead(f, EncodeVarint(n) + s)
    ensures ReadText(f, ReadVarint(f, bits, 0, 0)) == Part(f, |EncodeVarint(n)|, s, n)
  {
    AheadParts(f, EncodeVarint(n), s);
    VarintAheadWhole(f, bits, n);
    TextAhead(f, EncodeVarint(n), s, n, ReadVarint(f, bits, 0, 0));
  }

  lemma ValueAhead(f: Flat, hostLittle: bool, t: Typed)
    requires Fits(t) && Ahead(f, Encode(t))
    ensures var end := f.position + |Encode(t)|;
            ReadValue(f, hostLittle, t.kind) ==
              if Unreadable(t, end, |f.bytes|) then Failed(NullCursor, end) else Got(t.value, end)
  {
    match t.kind
    case Text(w) =>
      FixedTextAhead(f, hostLittle, w, t.value.s, |t.value.s|);
      assert t.value.s[..|t.value.s|] == t.value.s;
    case TextVar =>
      VarTextAhead(f, 64, t.value.s, |t.value.s|);
      assert t.value.s[..|t.value.s|] == t.value.s;
    case _ => NumberAhead(f, hostLittle, t);
  }

  function Kinds(ts: seq<Typed>): (ks: seq<Kind>)
    ensures |ks| == |ts| && forall i :: 0 <= i < |ts| ==> ks[i] == ts[i].kind
  {
    seq(|ts|, i requires 0 <= i < |ts| => ts[i].kind)
  }

  function Values(ts: seq<Typed>): (vs: seq<Value>)
    ensures |vs| == |ts| && forall i :: 0 <= i < |ts| ==> vs[i] == ts[i].value
  {
    seq(|ts|, i requires 0 <= i < |ts| => ts[i].value)
  }

  /** Reading the list cannot succeed: it ends in an unreadable empty string. */
  predicate EndsUnreadable(ts: seq<Typed>, end: nat, capacity: nat) {
    ts != [] && Unreadable(ts[|ts| - 1], end, capacity)
  }

  /** What reading a list of kinds over its own encoding gives. */
  function Expected(ts: seq<Typed>, end: nat, capacity: nat): Readings {
    if EndsUnreadable(ts, end, capacity) then Readings(Values(ts[..|ts| - 1]), Some(NullCursor), end)
    else Readings(Values(ts), None, end)
  }

  function Prepend(v: Value, r: Readings): Readings {
    Readings([v] + r.values, r.failure, r.position)
  }

  lemma ExpectedCons(ts: seq<Typed>, end: nat, capacity: nat)
    requires |ts| >= 2
    ensures Expected(ts, end, capacity) == Prepend(ts[0].value, Expected(ts[1..], end, capacity))
  {
    var rest := ts[1..];
    assert rest[|rest| - 1] == ts[|ts| - 1];
    assert Values(ts) == [ts[0].value] + Values(rest);
    assert Values(ts[..|ts| - 1]) == [ts[0].value] + Values(rest[..|rest| - 1]);
  }

  lemma ExpectedOne(t: Typed, end: nat, capacity: nat)
    ensures Expected([t], end, capacity) ==
            if Unreadable(t, end, capacity) then Readings([], Some(NullCursor), end) else Readings([t.value], None, end)
  {
    assert Values([t]) == [t.value] && Values([t][..0]) == [];
  }

  lemma ReadAllCons(f: Flat, hostLittle: bool, kinds: seq<Kind>, v: Value, p: nat)
    requires FlatOk(f) && kinds != [] && p <= f.size && ReadValue(f, hostLittle, kinds[0]) == Got(v, p)
    ensures ReadAll(f, hostLittle, kinds) == Prepend(v, ReadAll(f.(position := p), hostLittle, kinds[1..]))
  {}

  lemma OneAhead(f: Flat, hostLittle: bool, t: Typed)
    requires Fits(t) && Ahead(f, Encode(t))
    ensures ReadAll(f, hostLittle, Kinds([t])) == Expected([t], f.position + |Encode(t)|, |f.bytes|)
  {
    ValueAhead(f, hostLittle, t);
    assert Kinds([t]) == [t.kind] && [t.kind][1..] == [];
    ExpectedOne(t, f.position + |Encode(t)|, |f.bytes|);
  }

  lemma {:induction false} ListAhead(f: Flat, hostLittle: bool, ts: seq<Typed>, end: nat)
    requires AllFit(ts) && Ahead(f, EncodeAll(ts)) && end == f.position + |EncodeAll(ts)|
    ensures ReadAll(f, hostLittle, Kinds(ts)) == Expected(ts, end, |f.bytes|)
    decreases |ts|
  {
    if ts == [] {
      assert Kinds(ts) == [] && Values(ts) == [];
    } else {
      var t, rest := ts[0], ts[1..];
      var p := f.position + |Encode(t)|;
      AheadParts(f, Encode(t), EncodeAll(rest));
      if rest == [] {
        assert ts == [t] && end == p;
        OneAhead(f, hostLittle, t);
      } else {
        ListAhead(f.(position := p), hostLittle, rest, end);
        assert p < |f.bytes|;
        MoreAhead(f, hostLittle, ts, p, end);
      }
    }
  }

  /** One value ahead of others: it is not at the end of capacity. */
  lemma MoreAhead(f: Flat, hostLittle: bool, ts: seq<Typed>, p: nat, end: nat)
    requires |ts| >= 2 && Fits(ts[0]) && Ahead(f, Encode(ts[0])) && p == f.position + |Encode(ts[0])| < |f.bytes|
    requires ReadAll(f.(position := p), hostLittle, Kinds(ts[1..])) == Expected(ts[1..], end, |f.bytes|)
    ensures ReadAll(f, hostLittle, Kinds(ts)) == Expected(ts, end, |f.bytes|)
  {
    ValueAhead(f, hostLittle, ts[0]);
    ListStep(f, hostLittle, ts, p, end);
  }

  lemma ListStep(f: Flat, hostLittle: bool, ts: seq<Typed>, p: nat, end: nat)
    requires FlatOk(f) && |ts| >= 2 && p <= f.size
    requires ReadValue(f, hostLittle, ts[0].kind) == Got(ts[0].value, p)
    requires ReadAll(f.(position := p), hostLittle, Kinds(ts[1..])) == Expected(ts[1..], end, |f.bytes|)
    ensures ReadAll(f, hostLittle, Kinds(ts)) == Expected(ts, end, |f.bytes|)
  {
    assert Kinds(ts)[0] == ts[0].kind && Kinds(ts)[1..] == Kinds(ts[1..]);
    ReadAllCons(f, hostLittle, Kinds(ts), ts[0].value, p);
    ExpectedCons(ts, end, |f.bytes|);
  }

  /**
   * Typed values written in order and read back with the same types from where they began: the
   * reading ends where the writing ended and gives the same values, if and only if the last value
   * is not an empty string ending exactly at capacity.
   */
  lemma ListRoundTrip(f: Flat, base: nat, hostLittle: bool, ts: seq<Typed>, f': Flat, g: Flat)
    requires base >= 1 && FlatOk(f) && AllFit(ts)
    requires Written(f, base, EncodeAll(ts), f')
    requires MovedTo(f', f.position) == Some(g)
    ensures FlatOk(g)
    ensures ReadAll(g, hostLittle, Kinds(ts)) == Expected(ts, f'.position, |f'.bytes|)
    ensures ReadAll(g, hostLittle, Kinds(ts)) == Readings(Values(ts), None, f'.position) <==>
            !(ts != [] && ts[|ts| - 1].value == Str([])
              && f.position + |EncodeAll(ts)| == NewCapacity(f, base, |EncodeAll(ts)|))
  {
    AheadAgain(f, base, EncodeAll(ts), f', g);
    ListAhead(g, hostLittle, ts, f'.position);
    ExpectedFails(ts, f'.position, |f'.bytes|);
  }

  lemma AheadAgain(f: Flat, base: nat, d: seq<byte>, f': Flat, g: Flat)
    requires base >= 1 && FlatOk(f) && Written(f, base, d, f') && MovedTo(f', f.position) == Some(g)
    ensures Ahead(g, d) && g.position == f.position && g.bytes == f'.bytes
  {}

  lemma ExpectedFails(ts: seq<Typed>, end: nat, capacity: nat)
    ensures Expected(ts, end, capacity) == Readings(Values(ts), None, end) <==> !EndsUnreadable(ts, end, capacity)
  {}

  /** The failing family is not empty: an empty string with a one-byte prefix fills a chunk of one byte. */
  lemma EmptyStringAtCapacity(hostLittle: bool, junk: byte)
    ensures var t := Typed(TextVar, Str([]));
            var f := Flat([junk], 0, 0);
            Fits(t) && Written(f, 1, EncodeAll([t]), Flat([0], 1, 1)) &&
            ReadAll(Flat([0], 0, 1), hostLittle, [TextVar]) == Readings([], Some(NullCursor), 1)
  {
    var t := Typed(TextVar, Str([]));
    Pow2Order(0, 64);
    assert Fits(t);
    assert [t][1..] == [];
    assert EncodeAll([t]) == [0];
    var g := Flat([0], 0, 1);
    ListAhead(g, hostLittle, [t], 1);
    assert Kinds([t]) == [TextVar];
    assert Values([t][..0]) == [];
  }

  // ---------------------------------------------------------------- strings longer than their prefix

  /** How much of a length the prefix of this kind counts. */
  function Counted(kind: Kind, n: nat): (r: nat)
    requires kind.Text? || kind.TextVar?
    ensures r <= n
  {
    RemainderBelow(n, if kind.Text? then Modulus(kind.w) else Pow2(64));
    if kind.Text? then n % Modulus(kind.w) else n % Pow2(64)
  }

  /**
   * A string of any length behind its prefix: it comes back cut to what the prefix counts, and not
   * at all when nothing is counted and the prefix ends at capacity.
   */
  lemma OversizedString(f: Flat, hostLittle: bool, kind: Kind, s: seq<byte>)
    requires kind.TextVar? || (kind.Text? && kind.w >= 1)
    requires Ahead(f, Prefix(kind, |s|) + s)
    ensures ReadValue(f, hostLittle, kind) == Part(f, |Prefix(kind, |s|)|, s, Counted(kind, |s|))
    ensures s[..Counted(kind, |s|)] == s <==> |s| < if kind.Text? then Modulus(kind.w) else Pow2(64)
  {
    var n := Counted(kind, |s|);
    if kind.Text? { FixedTextAhead(f, hostLittle, kind.w, s, n); } else { VarTextAhead(f, 64, s, n); }
    CountedAll(s, if kind.Text? then Modulus(kind.w) else Pow2(64));
  }

  lemma CountedAll(s: seq<byte>, m: nat)
    requires m >= 1
    ensures 0 <= |s| % m <= |s| && (s[..|s| % m] == s <==> |s| < m)
  {
    RemainderBelow(|s|, m);
    if |s| < m { RemainderIs(|s|, 0, |s|, m); }
    assert |s[..|s| % m]| == |s| % m;
  }
}
