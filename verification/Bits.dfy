/** The bit operators of the byte array's codecs, tied to the arithmetic that stands for them. */
module Bits {
  import opened Chunks
  import opened Codec

  datatype Gate = And | Or | Xor

  function OnBit(g: Gate, x: bool, y: bool): bool {
    match g
    case And => x && y
    case Or => x || y
    case Xor => x != y
  }

  /** `&`, `|` and `^` of two unsigned patterns. */
  function Bitwise(g: Gate, a: nat, b: nat): nat
    decreases a + b
  {
    if a == 0 && b == 0 then 0
    else 2 * Bitwise(g, a / 2, b / 2) + if OnBit(g, a % 2 == 1, b % 2 == 1) then 1 else 0
  }

  function Bit(a: nat, i: nat): bool {
    if i == 0 then a % 2 == 1 else Bit(a / 2, i - 1)
  }

  /** Bit `i` of the result depends on bits `i` of the operands as the gate says. */
  lemma {:induction false} EachBit(g: Gate, a: nat, b: nat, i: nat)
    ensures Bit(Bitwise(g, a, b), i) == OnBit(g, Bit(a, i), Bit(b, i))
    decreases i
  {
    if i > 0 {
      EachBit(g, a / 2, b / 2, i - 1);
    }
    LowBit(g, a, b);
  }

  lemma LowBit(g: Gate, a: nat, b: nat)
    ensures Bitwise(g, a, b) / 2 == Bitwise(g, a / 2, b / 2)
    ensures Bitwise(g, a, b) % 2 == 1 <==> OnBit(g, a % 2 == 1, b % 2 == 1)
  {}

  lemma {:induction false} WithZero(g: Gate, a: nat)
    requires g != And
    ensures Bitwise(g, a, 0) == Bitwise(g, 0, a) == a
  {
    if a > 0 { WithZero(g, a / 2); }
  }

  /** Patterns with no bit in common: `|` is `+`. */
  lemma {:induction false} OrAbove(acc: nat, y: nat, shift: nat)
    requires acc < Pow2(shift)
    ensures Bitwise(Or, acc, y * Pow2(shift)) == acc + y * Pow2(shift)
    decreases shift
  {
    if shift == 0 {
      WithZero(Or, y);
    } else {
      var high := y * Pow2(shift - 1);
      assert y * Pow2(shift) == 2 * high;
      OrAbove(acc / 2, y, shift - 1);
    }
  }

  /** All ones flip every bit. */
  lemma {:induction false} XorOnes(u: nat, bits: nat, m: nat)
    requires m == Pow2(bits) && u < m
    ensures Bitwise(Xor, u, m - 1) == m - 1 - u
    decreases bits
  {
    if bits > 0 {
      XorOnes(u / 2, bits - 1, Pow2(bits - 1));
      LowOne(Xor, u, Pow2(bits - 1));
    }
  }

  lemma LowOne(g: Gate, u: nat, h: nat)
    requires h >= 1
    ensures Bitwise(g, u, 2 * h - 1) == 2 * Bitwise(g, u / 2, h - 1) + if OnBit(g, u % 2 == 1, true) then 1 else 0
  {
    assert (2 * h - 1) / 2 == h - 1 && (2 * h - 1) % 2 == 1;
  }

  /** A mask of low ones keeps the remainder. */
  lemma {:induction false} AndOnes(v: nat, k: nat, m: nat, q: nat, r: nat)
    requires m == Pow2(k) && v == q * m + r && r < m
    ensures Bitwise(And, v, m - 1) == r
    decreases k
  {
    if k == 0 {
      AndZero(v);
    } else {
      var h := Pow2(k - 1);
      assert q * m == 2 * (q * h);
      AndOnes(v / 2, k - 1, h, q, r / 2);
      LowOne(And, v, h);
    }
  }

  lemma {:induction false} AndZero(v: nat)
    ensures Bitwise(And, v, 0) == 0
  {
    if v > 0 { AndZero(v / 2); }
  }

  /** `(v >> 1) ^ -(v & 1)`, the negation taken modulo the width. */
  lemma DecodeZigzagBits(bits: nat, u: nat)
    requires bits >= 1 && u < Pow2(bits)
    ensures DecodeZigzag(Pow2(bits), u) ==
            Signed(Pow2(bits), Bitwise(Xor, u / 2, Pattern(Pow2(bits), 0 - Bitwise(And, u, 1))))
  {
    var m := Pow2(bits);
    assert Pow2(1) == 2;
    AndOnes(u, 1, 2, u / 2, u % 2);
    if u % 2 == 1 {
      RemainderIs(-1, -1, m - 1, m);
      XorOnes(u / 2, bits, m);
    } else {
      RemainderIs(0, 0, 0, m);
      WithZero(Xor, u / 2);
    }
  }

  /** `result |= b << i`, the shift cut to the width. */
  lemma OrShiftedBits(acc: nat, x: nat, shift: nat, bits: nat)
    requires acc < Pow2(shift) && x < 128 && shift < bits
    ensures OrShifted(acc, x, shift, bits) == Bitwise(Or, acc, x * Pow2(shift) % Pow2(bits))
  {
    Pow2Sum(shift, bits - shift);
    RemainderScales(x, Pow2(shift), Pow2(bits - shift));
    OrAbove(acc, x % Pow2(bits - shift), shift);
  }

  /** `b & 0x7f` in the reader and `(value & 0x7F) | 0x80` in the writer. */
  lemma VarintByteBits(v: nat)
    ensures Bitwise(And, v, 0x7f) == v % 128
    ensures Bitwise(Or, Bitwise(And, v, 0x7f), 0x80) == v % 128 + 128
  {
    assert Pow2(7) == 128;
    AndOnes(v, 7, 128, v / 128, v % 128);
    OrAbove(v % 128, 1, 7);
  }
}
