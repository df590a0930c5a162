/** Integer and string encodings of the byte array: fixed width, zigzag and base-128 varints. */
module Codec {
  import opened Chunks

  function Pow2(k: nat): (p: nat)
    ensures p >= 1
  {
    if k == 0 then 1 else 2 * Pow2(k - 1)
  }

  lemma {:induction false} Pow2Sum(i: nat, j: nat)
    ensures Pow2(i + j) == Pow2(i) * Pow2(j)
  {
    if i > 0 {
      Pow2Sum(i - 1, j);
      assert Pow2(i + j) == 2 * (Pow2(i - 1) * Pow2(j)) == 2 * Pow2(i - 1) * Pow2(j);
    }
  }

  /** The number of values of a `w`-byte integer. */
  function Modulus(w: nat): (p: nat)
    ensures p >= 1
  {
    if w == 0 then 1 else 256 * Modulus(w - 1)
  }

  // ---------------------------------------------------------------- byte order

  /** The `w` low bytes of `v`, least significant first. */
  function LittleBytes(w: nat, v: nat): (s: seq<byte>)
    ensures |s| == w
  {
    if w == 0 then [] else [v % 256] + LittleBytes(w - 1, v / 256)
  }

  function FromLittle(s: seq<byte>): nat {
    if s == [] then 0 else s[0] + 256 * FromLittle(s[1..])
  }

  function Reverse(s: seq<byte>): (r: seq<byte>)
    ensures |r| == |s|
    ensures forall i :: 0 <= i < |s| ==> r[i] == s[|s| - 1 - i]
  {
    if s == [] then [] else Reverse(s[1..]) + [s[0]]
  }

  lemma ReverseTwice(s: seq<byte>)
    ensures Reverse(Reverse(s)) == s
  {}

  lemma {:induction false} FromToLittle(w: nat, v: nat)
    requires v < Modulus(w)
    ensures FromLittle(LittleBytes(w, v)) == v
  {
    if w > 0 {
      FromToLittle(w - 1, v / 256);
      assert LittleBytes(w, v)[1..] == LittleBytes(w - 1, v / 256);
    }
  }

  lemma {:induction false} ToFromLittle(s: seq<byte>)
    ensures FromLittle(s) < Modulus(|s|)
    ensures LittleBytes(|s|, FromLittle(s)) == s
  {
    if s != [] {
      ToFromLittle(s[1..]);
      assert FromLittle(s) / 256 == FromLittle(s[1..]) && FromLittle(s) % 256 == s[0];
    }
  }

  /** The memory of a `w`-byte integer on a little- or big-endian host. */
  function HostBytes(hostLittle: bool, w: nat, v: nat): (s: seq<byte>)
    ensures |s| == w
  {
    if hostLittle then LittleBytes(w, v) else Reverse(LittleBytes(w, v))
  }

  function FromHost(hostLittle: bool, s: seq<byte>): nat {
    FromLittle(if hostLittle then s else Reverse(s))
  }

  /** Exchanges the bytes of a `w`-byte integer. */
  function Byteswap(w: nat, v: nat): nat {
    FromLittle(Reverse(LittleBytes(w, v)))
  }

  /** What a fixed-width write hands to `write`: one byte is never swapped. */
  function StoreFixed(hostLittle: bool, little: bool, w: nat, v: nat): (s: seq<byte>)
    ensures |s| == w
  {
    HostBytes(hostLittle, w, if w > 1 && little != hostLittle then Byteswap(w, v) else v)
  }

  function LoadFixed(hostLittle: bool, little: bool, s: seq<byte>): nat {
    var v := FromHost(hostLittle, s);
    if |s| <= 1 || little == hostLittle then v else Byteswap(|s|, v)
  }

  /** Most significant byte first. */
  function BigBytes(w: nat, v: nat): (s: seq<byte>)
    ensures |s| == w
  {
    if w == 0 then [] else BigBytes(w - 1, v / 256) + [v % 256]
  }

  lemma {:induction false} BigIsReversed(w: nat, v: nat)
    ensures BigBytes(w, v) == Reverse(LittleBytes(w, v))
  {
    if w > 0 {
      BigIsReversed(w - 1, v / 256);
      assert LittleBytes(w, v)[1..] == LittleBytes(w - 1, v / 256);
    }
  }

  /** Byte `i` of either order is the digit of that weight. */
  lemma {:induction false} ByteAt(w: nat, v: nat, i: nat)
    requires i < w
    ensures LittleBytes(w, v)[i] == v / Modulus(i) % 256
    ensures BigBytes(w, v)[w - 1 - i] == v / Modulus(i) % 256
    decreases w
  {
    if i > 0 {
      ByteAt(w - 1, v / 256, i - 1);
      QuotientTwice(v, Modulus(i - 1));
    }
  }

  lemma QuotientTwice(v: nat, m: nat)
    requires m >= 1
    ensures v / 256 / m == v / (256 * m)
  {
    var q, r := v / 256 / m, v / 256 % m;
    assert v / 256 == q * m + r;
    assert q * (256 * m) == 256 * (q * m);
    RemainderIs(v, q, 256 * r + v % 256, 256 * m);
  }

  /** The stored bytes depend on the chosen order only, never on the host's. */
  lemma StoredOrder(hostLittle: bool, little: bool, w: nat, v: nat)
    ensures StoreFixed(hostLittle, little, w, v) == if little then LittleBytes(w, v) else BigBytes(w, v)
  {
    var s := LittleBytes(w, v);
    BigIsReversed(w, v);
    if w <= 1 {
      assert Reverse(s) == s;
    } else if little != hostLittle {
      ToFromLittle(Reverse(s));
      ReverseTwice(s);
    }
  }

  lemma LoadOrder(hostLittle: bool, little: bool, s: seq<byte>)
    ensures LoadFixed(hostLittle, little, s) == FromLittle(if little then s else Reverse(s))
  {
    if |s| <= 1 {
      assert Reverse(s) == s;
    } else if little != hostLittle {
      ToFromLittle(if hostLittle then s else Reverse(s));
      ReverseTwice(s);
    }
  }

  /** A fixed-width integer written on one host is read back on any other. */
  lemma FixedRoundTrip(writer: bool, reader: bool, little: bool, w: nat, v: nat)
    requires v < Modulus(w)
    ensures LoadFixed(reader, little, StoreFixed(writer, little, w, v)) == v
  {
    StoredOrder(writer, little, w, v);
    LoadOrder(reader, little, StoreFixed(writer, little, w, v));
    BigIsReversed(w, v);
    ReverseTwice(LittleBytes(w, v));
    FromToLittle(w, v);
  }

  // ---------------------------------------------------------------- two's complement and zigzag

  predicate SignedIn(m: nat, v: int) {
    0 - m <= 2 * v < m
  }

  /** The bit pattern of a signed value, and back. */
  function Pattern(m: nat, v: int): (u: nat)
    requires m >= 1
    ensures u < m
  {
    v % m
  }

  function Signed(m: nat, u: nat): int {
    if 2 * u < m then u else u - m
  }

  lemma SignedRoundTrip(m: nat, v: int)
    requires m >= 2 && m % 2 == 0 && SignedIn(m, v)
    ensures Signed(m, Pattern(m, v)) == v
  {
    if v < 0 { RemainderIs(v, -1, v + m, m); } else { RemainderIs(v, 0, v, m); }
  }

  /** Negation and doubling wrap: the most negative value is its own negation. */
  function EncodeZigzag(m: nat, v: int): (u: nat)
    requires m >= 1
    ensures u < m
  {
    if v < 0 then (Pattern(m, Signed(m, Pattern(m, -v))) * 2 - 1) % m
    else Pattern(m, v * 2)
  }

  /** Exclusive or with minus the low bit: all ones flips every bit, zero flips none. */
  function DecodeZigzag(m: nat, u: nat): int
    requires u < m
  {
    Signed(m, if u % 2 == 1 then m - 1 - u / 2 else u / 2)
  }

  /** The pattern of the wrapped negation is the magnitude, the most negative value included. */
  lemma NegationWraps(m: nat, u: nat)
    requires m >= 2 && m % 2 == 0 && 2 * u <= m
    ensures Pattern(m, Signed(m, Pattern(m, u))) == u
  {
    RemainderIs(u, 0, u, m);
    if 2 * u >= m { RemainderIs(u - m, -1, u, m); }
  }

  /** Small magnitudes of either sign get small codes; nothing wraps in the end. */
  lemma ZigzagMeaning(m: nat, v: int)
    requires m >= 2 && m % 2 == 0 && SignedIn(m, v)
    ensures EncodeZigzag(m, v) == if v >= 0 then 2 * v else -2 * v - 1
  {
    if v < 0 {
      NegationWraps(m, -v);
      RemainderIs(-v * 2 - 1, 0, -v * 2 - 1, m);
    } else {
      RemainderIs(v * 2, 0, v * 2, m);
    }
  }

  lemma ZigzagRoundTrip(m: nat, v: int)
    requires m >= 2 && m % 2 == 0 && SignedIn(m, v)
    ensures DecodeZigzag(m, EncodeZigzag(m, v)) == v
  {
    ZigzagMeaning(m, v);
  }

  /** The code is a bijection: every pattern is the code of one value. */
  lemma ZigzagOnto(m: nat, u: nat)
    requires m >= 2 && m % 2 == 0 && u < m
    ensures SignedIn(m, DecodeZigzag(m, u))
    ensures EncodeZigzag(m, DecodeZigzag(m, u)) == u
  {
    ZigzagMeaning(m, DecodeZigzag(m, u));
  }

  // ---------------------------------------------------------------- varints

  function EncodeVarint(v: nat): (s: seq<byte>)
    ensures |s| >= 1
  {
    if v < 128 then [v] else [v % 128 + 128] + EncodeVarint(v / 128)
  }

  /** Groups of seven bits, least significant first. */
  function FromGroups(s: seq<byte>): nat {
    if s == [] then 0 else s[0] % 128 + 128 * FromGroups(s[1..])
  }

  /** The groups of an encoding are those of the value, every byte but the last is marked, and none is spare. */
  lemma {:induction false} VarintMeans(v: nat)
    ensures var s := EncodeVarint(v);
            && FromGroups(s) == v && s[|s| - 1] < 128 && (forall i :: 0 <= i < |s| - 1 ==> s[i] >= 128)
            && (|s| > 1 ==> s[|s| - 1] != 0)
  {
    if v >= 128 {
      var s, rest := EncodeVarint(v), EncodeVarint(v / 128);
      VarintMeans(v / 128);
      assert s[1..] == rest && s[|s| - 1] == rest[|rest| - 1];
      assert forall i :: 1 <= i < |s| ==> s[i] == rest[i - 1];
    } else {
      assert [v][1..] == [];
    }
  }

  /** An encoding of a value below 2^(7k) takes at most k bytes: 5 for 32 bits, 10 for 64. */
  lemma {:induction false} VarintLength(v: nat, k: nat)
    requires k >= 1 && v < Pow2(7 * k)
    ensures |EncodeVarint(v)| <= k
  {
    if v >= 128 {
      Pow2Sum(7, 7 * (k - 1));
      assert Pow2(7) == 128;
      VarintLength(v / 128, k - 1);
    }
  }

  lemma RemainderBelow(v: nat, m: nat)
    requires m >= 1
    ensures 0 <= v % m <= v
  {
    assert v == v / m * m + v % m;
    assert v / m * m >= 0;
  }

  lemma Distribute(a: int, b: int, p: int)
    ensures (a + b) * p == a * p + b * p && (a - b) * p == a * p - b * p
  {}

  lemma Regroup(a: int, q: int, p: int)
    ensures a * q * p == a * (p * q)
  {}

  lemma RemainderScales(x: nat, p: nat, q: nat)
    requires p >= 1 && q >= 1
    ensures x * p % (p * q) == x % q * p
    ensures x % q * p + p <= p * q
  {
    var a, r := x / q, x % q;
    Distribute(a * q, r, p);
    Regroup(a, q, p);
    Distribute(q, r, p);
    MultipleGrows(q - r, p);
    RemainderIs(x * p, a, r * p, p * q);
  }

  lemma ShiftBound(x: nat, shift: nat, bits: nat)
    requires x < 128 && shift < bits
    ensures Pow2(shift) + x * Pow2(shift) % Pow2(bits) <= Pow2(shift + 7)
    ensures Pow2(shift) + x * Pow2(shift) % Pow2(bits) <= Pow2(bits)
  {
    var p, q := Pow2(shift), Pow2(bits - shift);
    Pow2Sum(shift, 7);
    Pow2Sum(shift, bits - shift);
    assert Pow2(7) == 128;
    RemainderScales(x, p, q);
    RemainderBelow(x, q);
    Distribute(128, x % q, p);
    MultipleGrows(128 - x % q, p);
  }

  /** Adds seven bits at `shift` to a result that has none there yet, so that `|` is `+`. */
  function OrShifted(acc: nat, x: nat, shift: nat, bits: nat): (r: nat)
    requires acc < Pow2(shift) && x < 128 && shift < bits
    ensures r < Pow2(shift + 7) && r < Pow2(bits)
  {
    ShiftBound(x, shift, bits);
    acc + x * Pow2(shift) % Pow2(bits)
  }

  // ---------------------------------------------------------------- typed values

  /** `w` counts bytes and `bits` is 32 or 64. */
  datatype Kind =
    | Unsigned(w: nat)
    | SignedInt(w: nat)
    | Var(bits: nat)
    | Zig(bits: nat)
    | Text(w: nat)     // writeStringF16, F32, F64
    | TextVar          // writeStringVint

  datatype Value = Num(n: int) | Str(s: seq<byte>)

  datatype Typed = Typed(kind: Kind, value: Value)

  predicate KindOk(k: Kind) {
    match k
    case Unsigned(w) => w in {1, 2, 4, 8}
    case SignedInt(w) => w in {1, 2, 4, 8}
    case Var(bits) => bits in {32, 64}
    case Zig(bits) => bits in {32, 64}
    case Text(w) => w in {2, 4, 8}
    case TextVar => true
  }

  /** The value is one of the kind's type, and a string's length fits its prefix. */
  predicate Fits(t: Typed) {
    KindOk(t.kind) &&
    match t.kind
    case Unsigned(w) => t.value.Num? && 0 <= t.value.n < Modulus(w)
    case SignedInt(w) => t.value.Num? && SignedIn(Modulus(w), t.value.n)
    case Var(bits) => t.value.Num? && 0 <= t.value.n < Pow2(bits)
    case Zig(bits) => t.value.Num? && SignedIn(Pow2(bits), t.value.n)
    case Text(w) => t.value.Str? && |t.value.s| < Modulus(w)
    case TextVar => t.value.Str? && |t.value.s| < Pow2(64)
  }

  /** The bytes of a typed value: its own, or a length prefix and the string. */
  function Encode(t: Typed): (d: seq<byte>)
    requires Fits(t)
    ensures |d| >= 1
  {
    match t.kind
    case Unsigned(w) => BigBytes(w, t.value.n)
    case SignedInt(w) => BigBytes(w, Pattern(Modulus(w), t.value.n))
    case Var(bits) => EncodeVarint(t.value.n)
    case Zig(bits) => EncodeVarint(EncodeZigzag(Pow2(bits), t.value.n))
    case Text(w) => BigBytes(w, |t.value.s|) + t.value.s
    case TextVar => EncodeVarint(|t.value.s|) + t.value.s
  }

  /** The length prefix of a string: a fixed one keeps only the low bytes of the length. */
  function Prefix(kind: Kind, n: nat): seq<byte>
    requires kind.Text? || kind.TextVar?
  {
    if kind.Text? then BigBytes(kind.w, n % Modulus(kind.w)) else EncodeVarint(n % Pow2(64))
  }

  lemma PrefixFits(t: Typed)
    requires Fits(t) && t.value.Str?
    ensures Encode(t) == Prefix(t.kind, |t.value.s|) + t.value.s
  {
    var n := |t.value.s|;
    RemainderIs(n, 0, n, if t.kind.Text? then Modulus(t.kind.w) else Pow2(64));
  }

  predicate AllFit(ts: seq<Typed>) {
    forall i :: 0 <= i < |ts| ==> Fits(ts[i])
  }

  function EncodeAll(ts: seq<Typed>): (d: seq<byte>)
    requires AllFit(ts)
    ensures ts != [] ==> |d| >= 1
  {
    if ts == [] then [] else Encode(ts[0]) + EncodeAll(ts[1..])
  }

  lemma ModulusEven(w: nat)
    requires w >= 1
    ensures Modulus(w) >= 2 && Modulus(w) % 2 == 0
  {
    assert Modulus(w) == 256 * Modulus(w - 1);
  }

  lemma Pow2Even(k: nat)
    requires k >= 1
    ensures Pow2(k) >= 2 && Pow2(k) % 2 == 0
  {}
}
