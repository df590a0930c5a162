/** Typed writes and reads on a byte array, and the driver that writes a list and reads it back. */
module TypedIO {
  import opened Common
  import opened Chunks
  import opened Codec
  import F = FlatBuffer
  import opened ByteArrays

  // ---------------------------------------------------------------- writing

  /** Whatever the host's byte order, the bytes land most significant first. */
  method WriteFixed(ba: ByteArray, w: nat, v: nat)
    requires ba.Valid() && v < Modulus(w)
    modifies ba, ba.Repr
    ensures ba.Valid() && fresh(ba.Repr - old(ba.Repr))
    ensures F.Written(old(ba.View()), ba.base, BigBytes(w, v), ba.View())
  {
    StoredOrder(ba.hostLittle, ba.little, w, v);
    ba.Write(StoreFixed(ba.hostLittle, ba.little, w, v));
  }

  lemma VarintFits(bits: nat, v: nat)
    requires bits in {32, 64} && v < Pow2(bits)
    ensures |EncodeVarint(v)| <= if bits == 32 then 5 else 10
  {
    F.Pow2Order(bits, if bits == 32 then 7 * 5 else 7 * 10);
    VarintLength(v, if bits == 32 then 5 else 10);
  }

  /** The encoding loop stays inside its buffer of 5 or 10 bytes. */
  method WriteVarint(ba: ByteArray, bits: nat, v: nat)
    requires ba.Valid() && bits in {32, 64} && v < Pow2(bits)
    modifies ba, ba.Repr
    ensures ba.Valid() && fresh(ba.Repr - old(ba.Repr))
    ensures F.Written(old(ba.View()), ba.base, EncodeVarint(v), ba.View())
  {
    VarintFits(bits, v);
    var tmp := VarintBytes(if bits == 32 then 5 else 10, v);
    ba.Write(tmp);
  }

  method VarintBytes(room: nat, v: nat) returns (s: seq<byte>)
    requires |EncodeVarint(v)| <= room
    ensures s == EncodeVarint(v)
  {
    var tmp := new byte[room];
    var i, value := 0, v;
    while value >= 0x80
      invariant 0 <= i && 0 <= value && i + |EncodeVarint(value)| == |EncodeVarint(v)|
      invariant tmp[..i] + EncodeVarint(value) == EncodeVarint(v)
    {
      assert EncodeVarint(value) == [value % 128 + 128] + EncodeVarint(value / 128);
      tmp[i] := value % 128 + 128;
      i := i + 1;
      value := value / 128;
    }
    tmp[i] := value;
    i := i + 1;
    s := tmp[..i];
  }

  method WritePrefix(ba: ByteArray, kind: Kind, n: nat)
    requires ba.Valid() && (kind.Text? || kind.TextVar?)
    modifies ba, ba.Repr
    ensures ba.Valid() && fresh(ba.Repr - old(ba.Repr))
    ensures F.Written(old(ba.View()), ba.base, Prefix(kind, n), ba.View())
  {
    if kind.Text? {
      WriteFixed(ba, kind.w, n % Modulus(kind.w));
    } else {
      WriteVarint(ba, 64, n % Pow2(64));
    }
  }

  /** A string: as much of its length as the prefix holds, then all its bytes. */
  method WriteString(ba: ByteArray, kind: Kind, s: seq<byte>)
    requires ba.Valid() && (kind.Text? || kind.TextVar?)
    modifies ba, ba.Repr
    ensures ba.Valid() && fresh(ba.Repr - old(ba.Repr))
    ensures F.Written(old(ba.View()), ba.base, Prefix(kind, |s|) + s, ba.View())
  {
    ba.CursorNullIff();
    WritePrefix(ba, kind, |s|);
    ghost var f1 := ba.View();
    ba.Write(s);
    F.WritesCompose(old(ba.View()), ba.base, Prefix(kind, |s|), f1, s, ba.View());
  }

  method WriteValue(ba: ByteArray, t: Typed)
    requires ba.Valid() && Fits(t)
    modifies ba, ba.Repr
    ensures ba.Valid() && fresh(ba.Repr - old(ba.Repr))
    ensures F.Written(old(ba.View()), ba.base, Encode(t), ba.View())
  {
    match t.kind
    case Unsigned(w) => WriteFixed(ba, w, t.value.n);
    case SignedInt(w) => WriteFixed(ba, w, Pattern(Modulus(w), t.value.n));
    case Var(bits) => WriteVarint(ba, bits, t.value.n);
    case Zig(bits) => WriteVarint(ba, bits, EncodeZigzag(Pow2(bits), t.value.n));
    case _ =>
      PrefixFits(t);
      WriteString(ba, t.kind, t.value.s);
  }

  /** The first `i` values of `ts` were written since `f`, as the bytes `done`. */
  ghost predicate WroteSome(f: F.Flat, base: nat, f': F.Flat, ts: seq<Typed>, i: nat, done: seq<byte>)
    requires base >= 1 && AllFit(ts) && i <= |ts|
  {
    F.Written(f, base, done, f') && done + EncodeAll(ts[i..]) == EncodeAll(ts)
  }

  lemma EncodeAllAt(ts: seq<Typed>, i: nat, done: seq<byte>)
    requires AllFit(ts) && i < |ts| && done + EncodeAll(ts[i..]) == EncodeAll(ts)
    ensures done + Encode(ts[i]) + EncodeAll(ts[i + 1..]) == EncodeAll(ts)
  {
    assert ts[i..][1..] == ts[i + 1..];
  }

  method WriteNext(ba: ByteArray, ts: seq<Typed>, i: nat, ghost f: F.Flat, ghost done: seq<byte>)
    returns (ghost done': seq<byte>)
    requires ba.Valid() && AllFit(ts) && i < |ts| && F.FlatOk(f) && WroteSome(f, ba.base, ba.View(), ts, i, done)
    modifies ba, ba.Repr
    ensures ba.Valid() && fresh(ba.Repr - old(ba.Repr))
    ensures WroteSome(f, ba.base, ba.View(), ts, i + 1, done')
  {
    WriteValue(ba, ts[i]);
    F.WritesCompose(f, ba.base, done, old(ba.View()), Encode(ts[i]), ba.View());
    EncodeAllAt(ts, i, done);
    done' := done + Encode(ts[i]);
  }

  method WriteAll(ba: ByteArray, ts: seq<Typed>)
    requires ba.Valid() && AllFit(ts)
    modifies ba, ba.Repr
    ensures ba.Valid() && fresh(ba.Repr - old(ba.Repr))
    ensures F.Written(old(ba.View()), ba.base, EncodeAll(ts), ba.View())
  {
    ghost var f := ba.View();
    ghost var done: seq<byte> := [];
    ba.CursorNullIff();
    assert ts[0..] == ts;
    var i: nat := 0;
    while i < |ts|
      invariant i <= |ts| && ba.Valid() && fresh(ba.Repr - old(ba.Repr))
      invariant WroteSome(f, ba.base, ba.View(), ts, i, done)
    {
      done := WriteNext(ba, ts, i, f, done);
      i := i + 1;
    }
    assert done == EncodeAll(ts);
  }

  // ---------------------------------------------------------------- reading

  method ReadFixed(ba: ByteArray, w: nat) returns (r: F.Reading<nat>)
    requires ba.Valid()
    modifies ba`position, ba`cur
    ensures ba.Valid() && F.FlatOk(old(ba.View()))
    ensures r == F.ReadFixed(old(ba.View()), ba.hostLittle, w) && ba.position == r.position
  {
    var b := ba.Read(w);
    match b
    case Got(s, p) => r := F.Got(LoadFixed(ba.hostLittle, ba.little, s), p);
    case Failed(why, p) => r := F.Failed(why, p);
  }

  method ReadVarint(ba: ByteArray, bits: nat) returns (r: F.Reading<nat>)
    requires ba.Valid()
    modifies ba`position, ba`cur
    ensures ba.Valid() && F.FlatOk(old(ba.View()))
    ensures r == F.ReadVarint(old(ba.View()), bits, 0, 0) && ba.position == r.position
  {
    ghost var whole := F.ReadVarint(ba.View(), bits, 0, 0);
    var result, i := 0, 0;
    while i < bits
      invariant 0 <= i && 0 <= result < Pow2(i) && result < Pow2(bits)
      invariant ba.Valid() && F.FlatOk(ba.View()) && F.ReadVarint(ba.View(), bits, i, result) == whole
      decreases bits - i
    {
      var b := ba.Read(1);
      if b.Failed? {
        return F.Failed(b.why, b.position);
      }
      result := OrShifted(result, b.value[0] % 128, i, bits);
      if b.value[0] < 0x80 {
        return F.Got(result, b.position);
      }
      i := i + 7;
    }
    return F.Got(result, ba.position);
  }

  method ReadString(ba: ByteArray, kind: Kind) returns (r: F.Reading<Value>)
    requires ba.Valid() && (kind.Text? || kind.TextVar?)
    modifies ba`position, ba`cur
    ensures ba.Valid() && F.FlatOk(old(ba.View()))
    ensures r == F.ReadValue(old(ba.View()), ba.hostLittle, kind) && ba.position == r.position
  {
    var n;
    if kind.Text? {
      n := ReadFixed(ba, kind.w);
    } else {
      n := ReadVarint(ba, 64);
    }
    if n.Failed? {
      return F.Failed(n.why, n.position);
    }
    var s := ba.Read(n.value);
    match s
    case Got(d, p) => r := F.Got(Str(d), p);
    case Failed(why, p) => r := F.Failed(why, p);
  }

  method ReadValue(ba: ByteArray, kind: Kind) returns (r: F.Reading<Value>)
    requires ba.Valid()
    modifies ba`position, ba`cur
    ensures ba.Valid() && F.FlatOk(old(ba.View()))
    ensures r == F.ReadValue(old(ba.View()), ba.hostLittle, kind) && ba.position == r.position
  {
    if kind.Text? || kind.TextVar? {
      r := ReadString(ba, kind);
      return;
    }
    var u;
    if kind.Unsigned? || kind.SignedInt? {
      u := ReadFixed(ba, kind.w);
    } else {
      u := ReadVarint(ba, kind.bits);
    }
    match u
    case Got(n, p) => r := F.Got(Num(F.FromCode(kind, n)), p);
    case Failed(why, p) => r := F.Failed(why, p);
  }

  /** Reads until the first failure. */
  method ReadAll(ba: ByteArray, kinds: seq<Kind>) returns (rs: F.Readings)
    requires ba.Valid()
    modifies ba`position, ba`cur
    ensures ba.Valid() && F.FlatOk(old(ba.View()))
    ensures rs == F.ReadAll(old(ba.View()), ba.hostLittle, kinds) && ba.position == rs.position
  {
    ba.CursorNullIff();
    ghost var whole := F.ReadAll(ba.View(), ba.hostLittle, kinds);
    var values, i := [], 0;
    assert kinds[0..] == kinds;
    while i < |kinds|
      invariant 0 <= i <= |kinds| && ba.Valid() && F.FlatOk(ba.View())
      invariant Continues(whole, values, F.ReadAll(ba.View(), ba.hostLittle, kinds[i..]))
    {
      ghost var f := ba.View();
      var r := ReadValue(ba, kinds[i]);
      ReadAllAt(f, ba.hostLittle, kinds, i, r, whole, values);
      if r.Failed? {
        return F.Readings(values, Some(r.why), r.position);
      }
      ba.CursorNullIff();
      values, i := values + [r.value], i + 1;
    }
    return F.Readings(values, None, ba.position);
  }

  /** Reading the whole list is the values so far and reading the rest. */
  ghost predicate Continues(whole: F.Readings, values: seq<Value>, rest: F.Readings) {
    whole == F.Readings(values + rest.values, rest.failure, rest.position)
  }

  lemma ReadAllAt(f: F.Flat, hostLittle: bool, kinds: seq<Kind>, i: nat, r: F.Reading<Value>, whole: F.Readings,
                  values: seq<Value>)
    requires F.FlatOk(f) && i < |kinds| && r == F.ReadValue(f, hostLittle, kinds[i])
    requires Continues(whole, values, F.ReadAll(f, hostLittle, kinds[i..]))
    ensures r.Failed? ==> whole == F.Readings(values, Some(r.why), r.position)
    ensures r.Got? ==> r.position <= f.size
    ensures r.Got? ==> Continues(whole, values + [r.value],
                                 F.ReadAll(f.(position := r.position), hostLittle, kinds[i + 1..]))
  {
    assert kinds[i..][0] == kinds[i] && kinds[i..][1..] == kinds[i + 1..];
    if r.Got? {
      F.ReadAllCons(f, hostLittle, kinds[i..], r.value, r.position);
      var rest := F.ReadAll(f.(position := r.position), hostLittle, kinds[i + 1..]);
      assert values + ([r.value] + rest.values) == values + [r.value] + rest.values;
    } else {
      assert values + [] == values;
    }
  }

  // ---------------------------------------------------------------- writing a list and reading it back

  /**
   * For any node size and any list: seeking back and reading with the same types gives the same
   * values and nothing is left to read, unless the last is an empty string ending at capacity.
   */
  method WriteThenRead(base: nat, hostLittle: bool, ts: seq<Typed>) returns (rs: F.Readings, left: nat)
    requires base >= 1 && AllFit(ts)
    ensures rs.failure == None <==>
            !(ts != [] && ts[|ts| - 1].value == Str([])
              && |EncodeAll(ts)| == F.Max(base, RoundUp(|EncodeAll(ts)|, base)))
    ensures rs.failure == None ==> rs.values == F.Values(ts)
    ensures rs.failure != None ==> rs.failure == Some(F.NullCursor) && rs.values == F.Values(ts[..|ts| - 1])
    ensures left == 0
  {
    var ba := new ByteArray(base, hostLittle);
    ba.CursorNullIff();
    ghost var f := ba.View();
    WriteAll(ba, ts);
    ba.CursorNullIff();
    ghost var f' := ba.View();
    var ok := ba.SetPosition(0);
    F.ListRoundTrip(f, base, hostLittle, ts, f', ba.View());
    rs := ReadAll(ba, F.Kinds(ts));
    left := ba.size - ba.position;
    FirstRoom(base, |EncodeAll(ts)|);
  }

  lemma FirstRoom(base: nat, n: nat)
    requires base >= 1
    ensures F.Max(base, RoundUp(n, base)) == if n <= base then base else RoundUp(n, base)
  {}

  /**
   * A string of any length behind any prefix, written and read back: as much of it as the prefix
   * counts, except for the empty string whose prefix ends at capacity.
   */
  method WriteThenReadString(base: nat, hostLittle: bool, kind: Kind, s: seq<byte>) returns (r: F.Reading<Value>)
    requires base >= 1 && (kind.TextVar? || (kind.Text? && kind.w >= 1))
    ensures var n, p := F.Counted(kind, |s|), |Prefix(kind, |s|)|;
            r == if s == [] && p == F.Max(base, RoundUp(p, base)) then F.Failed(F.NullCursor, p)
                 else F.Got(Str(s[..n]), p + n)
  {
    var ba := new ByteArray(base, hostLittle);
    ba.CursorNullIff();
    ghost var f := ba.View();
    WriteString(ba, kind, s);
    ba.CursorNullIff();
    ghost var f' := ba.View();
    var _ := ba.SetPosition(0);
    StringBack(f, base, hostLittle, kind, s, f', ba.View());
    r := ReadValue(ba, kind);
  }

  /** The same of the flat buffer, from an empty one of one chunk. */
  lemma StringBack(f: F.Flat, base: nat, hostLittle: bool, kind: Kind, s: seq<byte>, f': F.Flat, g: F.Flat)
    requires base >= 1 && F.FlatOk(f) && f.position == 0 && |f.bytes| == base
    requires kind.TextVar? || (kind.Text? && kind.w >= 1)
    requires F.Written(f, base, Prefix(kind, |s|) + s, f') && F.MovedTo(f', 0) == Some(g)
    ensures F.FlatOk(g)
    ensures var n, p := F.Counted(kind, |s|), |Prefix(kind, |s|)|;
            F.ReadValue(g, hostLittle, kind) ==
              if s == [] && p == F.Max(base, RoundUp(p, base)) then F.Failed(F.NullCursor, p)
              else F.Got(Str(s[..n]), p + n)
  {
    var prefix := Prefix(kind, |s|);
    F.AheadAgain(f, base, prefix + s, f', g);
    F.OversizedString(g, hostLittle, kind, s);
    PrefixAtCapacity(base, |prefix|, |s|);
  }

  /** A prefix ends at the new capacity exactly when nothing follows it and it fills its chunks. */
  lemma PrefixAtCapacity(base: nat, p: nat, n: nat)
    requires base >= 1
    ensures var capacity := if p + n <= base then base else RoundUp(p + n, base);
            p == capacity <==> n == 0 && p == F.Max(base, RoundUp(p, base))
  {
    FirstRoom(base, p);
  }

  /** 65536 bytes written by writeStringF16 come back as the empty string. */
  method LongStringVanishes(base: nat, hostLittle: bool) returns (s: seq<byte>, v: Value)
    requires base >= 1
    ensures |s| == 65536 && v == Str([])
  {
    s := seq(65536, i => 0);
    assert Modulus(2) == 65536 && |s| == 65536;
    var r := WriteThenReadString(base, hostLittle, Text(2), s);
    v := r.value;
  }
}
