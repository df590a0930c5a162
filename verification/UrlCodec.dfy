/** Percent encoding and decoding of byte strings (section 2.1 of RFC 3986). */
module UrlCodec {
  import opened Common
  import opened Chunks

  const Space: byte := 32
  const Percent: byte := 37
  const Plus: byte := 43

  /** The table of bytes that stand for themselves; it admits '=' beside those of section 2.3 of the RFC. */
  predicate Unreserved(c: byte) {
    || c == 45 || c == 46 || c == 61 || c == 95 || c == 126   // - . = _ ~
    || 48 <= c <= 57 || 65 <= c <= 90 || 97 <= c <= 122        // digits and letters
  }

  /** "0123456789ABCDEF" */
  function HexDigit(n: nat): byte
    requires n < 16
  {
    if n < 10 then 48 + n else 55 + n
  }

  predicate IsHex(c: byte) {
    48 <= c <= 57 || 65 <= c <= 70 || 97 <= c <= 102
  }

  function HexValue(c: byte): (v: nat)
    ensures v < 16
  {
    if 48 <= c <= 57 then c - 48
    else if 65 <= c <= 70 then c - 55
    else if 97 <= c <= 102 then c - 87
    else 0
  }

  // ---------------------------------------------------------------- per-character translation

  function EncodeByte(c: byte, spaceAsPlus: bool): seq<byte> {
    if Unreserved(c) then [c]
    else if c == Space && spaceAsPlus then [Plus]
    else [Percent, HexDigit(c / 16), HexDigit(c % 16)]
  }

  function Encode(s: seq<byte>, spaceAsPlus: bool): seq<byte> {
    if s == [] then [] else EncodeByte(s[0], spaceAsPlus) + Encode(s[1..], spaceAsPlus)
  }

  /** A percent sign with two hexadecimal digits behind it. */
  predicate IsEscape(s: seq<byte>) {
    |s| >= 3 && s[0] == Percent && IsHex(s[1]) && IsHex(s[2])
  }

  /** Malformed escapes stand for themselves. */
  function Decode(s: seq<byte>, spaceAsPlus: bool): seq<byte> {
    if s == [] then []
    else if s[0] == Plus && spaceAsPlus then [Space] + Decode(s[1..], spaceAsPlus)
    else if IsEscape(s) then [16 * HexValue(s[1]) + HexValue(s[2])] + Decode(s[3..], spaceAsPlus)
    else [s[0]] + Decode(s[1..], spaceAsPlus)
  }

  /** Letters, digits, the marks of section 2.3 of the RFC, and the equals sign. */
  lemma UnreservedIff(c: byte)
    ensures var x := c as char;
            Unreserved(c) <==> 'A' <= x <= 'Z' || 'a' <= x <= 'z' || '0' <= x <= '9' || x in {'-', '.', '_', '~', '='}
  {}

  /** The sixteen digits in either case. */
  const UpperDigits := "0123456789ABCDEF"
  const LowerDigits := "0123456789abcdef"

  lemma DigitMeans(n: nat, d: byte)
    requires n < 16 && (d as char == UpperDigits[n] || d as char == LowerDigits[n])
    ensures IsHex(d) && HexValue(d) == n
  {}

  /** An escape of any byte, in either case of the digits, decodes to that byte. */
  lemma EscapeMeans(c: byte, h: byte, l: byte, t: seq<byte>, spaceAsPlus: bool)
    requires h as char == UpperDigits[c / 16] || h as char == LowerDigits[c / 16]
    requires l as char == UpperDigits[c % 16] || l as char == LowerDigits[c % 16]
    ensures Decode([Percent, h, l] + t, spaceAsPlus) == [c] + Decode(t, spaceAsPlus)
  {
    DigitMeans(c / 16, h);
    DigitMeans(c % 16, l);
    EscapeDecodes(h, l, t, spaceAsPlus);
  }

  lemma EscapeDecodes(h: byte, l: byte, t: seq<byte>, spaceAsPlus: bool)
    requires IsHex(h) && IsHex(l)
    ensures Decode([Percent, h, l] + t, spaceAsPlus) == [16 * HexValue(h) + HexValue(l)] + Decode(t, spaceAsPlus)
  {
    var s := [Percent, h, l] + t;
    assert s[3..] == t && s[1] == h && s[2] == l;
  }

  /** A percent sign not followed by two digits of either case stands for itself. */
  lemma NoEscape(s: seq<byte>, spaceAsPlus: bool)
    requires s != [] && s[0] == Percent
    requires |s| < 3 || !(s[1] as char in UpperDigits + LowerDigits) || !(s[2] as char in UpperDigits + LowerDigits)
    ensures Decode(s, spaceAsPlus) == [Percent] + Decode(s[1..], spaceAsPlus)
  {}

  /** What is not in the table is written with upper-case digits, or a space as plus where asked for. */
  lemma EscapeWritten(c: byte, spaceAsPlus: bool)
    requires !Unreserved(c) && !(c == Space && spaceAsPlus)
    ensures |EncodeByte(c, spaceAsPlus)| == 3 && EncodeByte(c, spaceAsPlus)[0] == Percent
    ensures EncodeByte(c, spaceAsPlus)[1] as char == UpperDigits[c / 16]
    ensures EncodeByte(c, spaceAsPlus)[2] as char == UpperDigits[c % 16]
  {}

  // ---------------------------------------------------------------- the lazily allocated loops

  /** The output so far: nothing was allocated while it equals the input. */
  function Output(ss: Option<seq<byte>>, read: seq<byte>): seq<byte> {
    if ss.None? then read else ss.value
  }

  /** Appends translated bytes, allocating the output with the input read so far if this is the first change. */
  function Changed(ss: Option<seq<byte>>, read: seq<byte>, d: seq<byte>): (r: Option<seq<byte>>)
    ensures r.Some? && r.value == Output(ss, read) + d
  {
    if ss.None? then Some(read + d) else Some(ss.value + d)
  }

  /** Keeps a byte: only an allocated output needs it appended. */
  function Kept(ss: Option<seq<byte>>, read: seq<byte>, c: byte): (r: Option<seq<byte>>)
    ensures Output(r, read + [c]) == Output(ss, read) + [c]
  {
    if ss.None? then None else Some(ss.value + [c])
  }

  lemma EncodeTurn(str: seq<byte>, i: nat, plus: bool, before: seq<byte>, whole: seq<byte>)
    requires i < |str| && before + Encode(str[i..], plus) == whole
    ensures before + EncodeByte(str[i], plus) + Encode(str[i + 1..], plus) == whole
  {
    assert str[i..][1..] == str[i + 1..];
  }

  /** One turn of the encoding loop. */
  method EncodeStep(ss: Option<seq<byte>>, read: seq<byte>, c: byte, spaceAsPlus: bool) returns (ss': Option<seq<byte>>)
    ensures Output(ss', read + [c]) == Output(ss, read) + EncodeByte(c, spaceAsPlus)
  {
    if !Unreserved(c) {
      if c == Space && spaceAsPlus {
        ss' := Changed(ss, read, [Plus]);
      } else {
        ss' := Changed(ss, read, [Percent, HexDigit(c / 16), HexDigit(c % 16)]);
      }
    } else {
      ss' := Kept(ss, read, c);
    }
  }

  method UrlEncode(str: seq<byte>, spaceAsPlus: bool) returns (r: seq<byte>)
    ensures r == Encode(str, spaceAsPlus)
  {
    ghost var whole := Encode(str, spaceAsPlus);
    var ss: Option<seq<byte>> := None;
    var i := 0;
    assert str[0..] == str && str[..0] == [];
    while i < |str|
      invariant 0 <= i <= |str|
      invariant Output(ss, str[..i]) + Encode(str[i..], spaceAsPlus) == whole
    {
      EncodeTurn(str, i, spaceAsPlus, Output(ss, str[..i]), whole);
      ss := EncodeStep(ss, str[..i], str[i], spaceAsPlus);
      assert str[..i] + [str[i]] == str[..i + 1];
      i := i + 1;
    }
    assert Encode(str[i..], spaceAsPlus) == [] && str[..i] == str;
    return if ss.None? then str else ss.value;
  }

  predicate EscapeAt(str: seq<byte>, i: nat)
    requires i < |str|
  {
    str[i] == Percent && i + 2 < |str| && IsHex(str[i + 1]) && IsHex(str[i + 2])
  }

  lemma DecodeTurn(str: seq<byte>, i: nat, plus: bool, before: seq<byte>, whole: seq<byte>)
    requires i < |str| && before + Decode(str[i..], plus) == whole
    ensures str[i] == Plus && plus ==> before + [Space] + Decode(str[i + 1..], plus) == whole
    ensures EscapeAt(str, i) ==>
              before + [16 * HexValue(str[i + 1]) + HexValue(str[i + 2])] + Decode(str[i + 3..], plus) == whole
    ensures !(str[i] == Plus && plus) && !EscapeAt(str, i) ==> before + [str[i]] + Decode(str[i + 1..], plus) == whole
  {
    assert IsEscape(str[i..]) == EscapeAt(str, i);
    assert str[i..][1..] == str[i + 1..];
    if EscapeAt(str, i) { assert str[i..][3..] == str[i + 3..]; }
  }

  /** One turn of the decoding loop; an escape takes two more bytes. */
  method DecodeStep(ss: Option<seq<byte>>, str: seq<byte>, i: nat, spaceAsPlus: bool, ghost whole: seq<byte>)
      returns (ss': Option<seq<byte>>, i': nat)
    requires i < |str| && Output(ss, str[..i]) + Decode(str[i..], spaceAsPlus) == whole
    ensures i < i' <= |str| && Output(ss', str[..i']) + Decode(str[i'..], spaceAsPlus) == whole
  {
    var c := str[i];
    DecodeTurn(str, i, spaceAsPlus, Output(ss, str[..i]), whole);
    if c == Plus && spaceAsPlus {
      return Changed(ss, str[..i], [Space]), i + 1;
    } else if c == Percent && i + 2 < |str| && IsHex(str[i + 1]) && IsHex(str[i + 2]) {
      return Changed(ss, str[..i], [16 * HexValue(str[i + 1]) + HexValue(str[i + 2])]), i + 3;
    } else {
      assert str[..i] + [c] == str[..i + 1];
      return Kept(ss, str[..i], c), i + 1;
    }
  }

  method UrlDecode(str: seq<byte>, spaceAsPlus: bool) returns (r: seq<byte>)
    ensures r == Decode(str, spaceAsPlus)
  {
    ghost var whole := Decode(str, spaceAsPlus);
    var ss: Option<seq<byte>> := None;
    var i: nat := 0;
    assert str[0..] == str && str[..0] == [];
    while i < |str|
      invariant i <= |str|
      invariant Output(ss, str[..i]) + Decode(str[i..], spaceAsPlus) == whole
      decreases |str| - i
    {
      ss, i := DecodeStep(ss, str, i, spaceAsPlus, whole);
    }
    assert Decode(str[i..], spaceAsPlus) == [] && str[..i] == str;
    return if ss.None? then str else ss.value;
  }

  // ---------------------------------------------------------------- round trips

  lemma HexRoundTrip(c: byte)
    ensures IsHex(HexDigit(c / 16)) && IsHex(HexDigit(c % 16))
    ensures 16 * HexValue(HexDigit(c / 16)) + HexValue(HexDigit(c % 16)) == c
  {}

  /** What a byte comes back as: only a space written as '+' and read by a decoder that keeps '+' differs. */
  function Survivor(c: byte, encodePlus: bool, decodePlus: bool): byte {
    if c == Space && encodePlus && !decodePlus then Plus else c
  }

  lemma ByteRoundTrip(c: byte, t: seq<byte>, encodePlus: bool, decodePlus: bool)
    ensures Decode(EncodeByte(c, encodePlus) + t, decodePlus) ==
              [Survivor(c, encodePlus, decodePlus)] + Decode(t, decodePlus)
  {
    var e := EncodeByte(c, encodePlus);
    assert (e + t)[|e|..] == t;
    HexRoundTrip(c);
  }

  lemma {:induction false} DecodeEncoded(s: seq<byte>, encodePlus: bool, decodePlus: bool)
    ensures |Decode(Encode(s, encodePlus), decodePlus)| == |s|
    ensures forall i :: 0 <= i < |s| ==>
              Decode(Encode(s, encodePlus), decodePlus)[i] == Survivor(s[i], encodePlus, decodePlus)
  {
    if s != [] {
      DecodeEncoded(s[1..], encodePlus, decodePlus);
      ByteRoundTrip(s[0], Encode(s[1..], encodePlus), encodePlus, decodePlus);
    }
  }

  /** Decoding undoes encoding for every byte string, exactly unless only the encoder writes spaces as '+'. */
  lemma {:induction false} RoundTrip(s: seq<byte>, encodePlus: bool, decodePlus: bool)
    ensures Decode(Encode(s, encodePlus), decodePlus) == s <==> !(encodePlus && !decodePlus && Space in s)
  {
    DecodeEncoded(s, encodePlus, decodePlus);
    var t := Decode(Encode(s, encodePlus), decodePlus);
    if encodePlus && !decodePlus && Space in s {
      var i :| 0 <= i < |s| && s[i] == Space;
      assert t[i] != s[i];
    } else {
      assert t == s;
    }
  }

  /** An encoding holds only unreserved bytes, '%' and '+': it can stand between any other delimiters. */
  lemma {:induction false} EncodedAlphabet(s: seq<byte>, spaceAsPlus: bool)
    ensures forall i :: 0 <= i < |Encode(s, spaceAsPlus)| ==>
              var c := Encode(s, spaceAsPlus)[i]; Unreserved(c) || c == Percent || (c == Plus && spaceAsPlus)
  {
    if s != [] {
      EncodedAlphabet(s[1..], spaceAsPlus);
      var e := EncodeByte(s[0], spaceAsPlus);
      assert forall i :: 0 <= i < |e| ==> Unreserved(e[i]) || e[i] == Percent || (e[i] == Plus && spaceAsPlus);
    }
  }

  lemma {:induction false} EncodeGrows(s: seq<byte>, spaceAsPlus: bool)
    ensures |Encode(s, spaceAsPlus)| >= |s|
  {
    if s != [] {
      EncodeGrows(s[1..], spaceAsPlus);
    }
  }

  /** The input itself is returned exactly when it has nothing to encode. */
  lemma {:induction false} EncodeIsIdentity(s: seq<byte>, spaceAsPlus: bool)
    ensures Encode(s, spaceAsPlus) == s <==> forall i :: 0 <= i < |s| ==> Unreserved(s[i])
  {
    if s != [] {
      var t := s[1..];
      EncodeIsIdentity(t, spaceAsPlus);
      EncodeGrows(t, spaceAsPlus);
      var r := Encode(s, spaceAsPlus);
      assert forall i :: 0 <= i < |t| ==> t[i] == s[i + 1];
      if Unreserved(s[0]) {
        assert r[1..] == Encode(t, spaceAsPlus);
        assert r == s ==> Encode(t, spaceAsPlus) == t;
        assert forall i :: 0 < i < |s| ==> s[i] == t[i - 1];
      } else {
        assert s[0] != Plus || |r| > |s|;
        assert r != s;
      }
    }
  }
}
