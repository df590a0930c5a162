/** What the parameter parser makes of any string, well-formed or not. */
module ParamStrings {
  import opened Common
  import opened Chunks
  import opened UrlCodec
  import opened Params

  /** A key and a value as they stand in the string. */
  datatype Raw = Raw(key: seq<byte>, value: seq<byte>)

  predicate RawOk(r: Raw, flag: byte) { Equals !in r.key && flag !in r.value }

  predicate AllOk(raws: seq<Raw>, flag: byte) { forall i :: 0 <= i < |raws| ==> RawOk(raws[i], flag) }

  /** key=value pieces with `flag` between them, and behind them nothing or `flag` and a tail. */
  function Assemble(raws: seq<Raw>, tail: Option<seq<byte>>, flag: byte): seq<byte>
    decreases |raws|, 1
  {
    if raws == [] then if tail.Some? then tail.value else []
    else raws[0].key + [Equals] + raws[0].value + Rest(raws, tail, flag)
  }

  function Rest(raws: seq<Raw>, tail: Option<seq<byte>>, flag: byte): seq<byte>
    requires raws != []
    decreases |raws|, 0
  {
    if |raws| == 1 && tail.None? then [] else [flag] + Assemble(raws[1..], tail, flag)
  }

  function PairsOf(raws: seq<Raw>, trim: bool): seq<Pair> {
    if raws == [] then []
    else [Pair(KeyOf(raws[0].key, trim), Decode(raws[0].value, true))] + PairsOf(raws[1..], trim)
  }

  /** Such a string parses to its pieces; a tail without '=' is ignored. */
  lemma {:induction false} ParseAssembled(raws: seq<Raw>, tail: Option<seq<byte>>, flag: byte, trim: bool)
    requires flag != Equals && AllOk(raws, flag) && (tail.Some? ==> Equals !in tail.value)
    ensures Parse(Assemble(raws, tail, flag), flag, trim) == PairsOf(raws, trim)
    decreases |raws|
  {
    var s := Assemble(raws, tail, flag);
    if raws == [] {
      FindIsNone(s, Equals, 0);
    } else {
      var r, more := raws[0], Rest(raws, tail, flag);
      var p := Pair(KeyOf(r.key, trim), Decode(r.value, true));
      RenderedTurn(r.key, r.value, more, s, flag, trim);
      if more == [] {
        ParseLast(s, flag, trim, p);
      } else {
        var rest := Assemble(raws[1..], tail, flag);
        RenderedRest(r.key, r.value, flag, rest, s);
        ParseOne(s, flag, trim, p, |r.key| + |r.value| + 2, rest);
        ParseAssembled(raws[1..], tail, flag, trim);
      }
    }
  }

  /** Every string is of this form. */
  lemma {:induction false} EveryString(s: seq<byte>, flag: byte) returns (raws: seq<Raw>, tail: Option<seq<byte>>)
    requires flag != Equals
    ensures AllOk(raws, flag) && (tail.Some? ==> Equals !in tail.value) && s == Assemble(raws, tail, flag)
    ensures raws == [] ==> tail.Some?
    decreases |s|
  {
    var f := Find(s, Equals, 0);
    FindSkips(s, Equals, 0);
    if f.None? {
      raws, tail := [], Some(s);
      assert s[0..|s|] == s;
    } else {
      var k := f.value;
      var g := Find(s, flag, k);
      FindSkips(s, flag, k);
      var e := if g.Some? then g.value else |s|;
      var r := Raw(s[..k], s[k + 1..e]);
      PieceOk(s, k, e, flag);
      if g.None? {
        raws, tail := [r], None;
      } else {
        raws, tail := EveryString(s[e + 1..], flag);
        Prepend(s, k, e, flag, raws, tail);
        raws := [r] + raws;
      }
    }
  }

  lemma PieceOk(s: seq<byte>, k: nat, e: nat, flag: byte)
    requires k < e <= |s| && s[k] == Equals && Equals !in s[0..k] && flag !in s[k..e]
    ensures RawOk(Raw(s[..k], s[k + 1..e]), flag)
    ensures e == |s| ==> s == s[..k] + [Equals] + s[k + 1..e]
  {
    assert s[..k] == s[0..k];
    var v, w := s[k + 1..e], s[k..e];
    assert forall j :: 0 <= j < |v| ==> v[j] == w[j + 1];
  }

  lemma Prepend(s: seq<byte>, k: nat, e: nat, flag: byte, raws: seq<Raw>, tail: Option<seq<byte>>)
    requires k < e < |s| && s[k] == Equals && s[e] == flag && s[e + 1..] == Assemble(raws, tail, flag)
    requires raws == [] ==> tail.Some?
    ensures s == Assemble([Raw(s[..k], s[k + 1..e])] + raws, tail, flag)
  {
    var all := [Raw(s[..k], s[k + 1..e])] + raws;
    assert all[1..] == raws;
    assert s == s[..k] + [Equals] + s[k + 1..e] + ([flag] + s[e + 1..]);
  }

  /**
   * For every string: it is a list of key=value pieces whose keys hold no '=' and whose values no
   * separator, then perhaps a tail without '=', and the parser gives exactly these pieces, in order.
   */
  lemma ParseExact(s: seq<byte>, flag: byte, trim: bool) returns (raws: seq<Raw>, tail: Option<seq<byte>>)
    requires flag != Equals
    ensures AllOk(raws, flag) && (tail.Some? ==> Equals !in tail.value) && s == Assemble(raws, tail, flag)
    ensures Parse(s, flag, trim) == PairsOf(raws, trim)
  {
    raws, tail := EveryString(s, flag);
    ParseAssembled(raws, tail, flag, trim);
  }

  // ---------------------------------------------------------------- blanks and letters

  predicate IsBlank(c: byte) { c as char in {' ', '\t', '\r', '\n'} }

  lemma {:induction false} LeftBlanks(s: seq<byte>) returns (i: nat)
    ensures i <= |s| && TrimLeft(s) == s[i..] && (i < |s| ==> !IsBlank(s[i]))
    ensures forall k :: 0 <= k < i ==> IsBlank(s[k])
  {
    i := 0;
    if s != [] && Blank(s[0]) {
      i := LeftBlanks(s[1..]);
      assert forall k :: 1 <= k < i + 1 ==> s[k] == s[1..][k - 1];
      i := i + 1;
    }
  }

  lemma {:induction false} RightBlanks(s: seq<byte>) returns (j: nat)
    ensures j <= |s| && TrimRight(s) == s[..j] && (j > 0 ==> !IsBlank(s[j - 1]))
    ensures forall k :: j <= k < |s| ==> IsBlank(s[k])
  {
    j := |s|;
    if s != [] && Blank(s[|s| - 1]) {
      j := RightBlanks(s[..|s| - 1]);
    }
  }

  /** Trimming takes away the spaces, tabs and line ends at both ends, and nothing else. */
  lemma TrimExact(s: seq<byte>) returns (i: nat, j: nat)
    ensures i <= j <= |s| && Trim(s) == s[i..j]
    ensures forall k :: 0 <= k < i || j <= k < |s| ==> IsBlank(s[k])
    ensures i < j ==> !IsBlank(s[i]) && !IsBlank(s[j - 1])
  {
    i := LeftBlanks(s);
    var t := TrimLeft(s);
    j := RightBlanks(t);
    assert forall k :: 0 <= k < |t| ==> t[k] == s[i + k];
    assert forall k :: i + j <= k < |s| ==> IsBlank(s[k]) by {
      forall k | i + j <= k < |s| ensures IsBlank(s[k]) { assert t[k - i] == s[k]; }
    }
    j := i + j;
  }

  /** Keys are compared in lower case: capital letters stand for their small ones, all else for itself. */
  lemma LowerIs(c: byte)
    ensures 'A' <= c as char <= 'Z' ==> (Lower(c) as char) as int - 'a' as int == (c as char) as int - 'A' as int
    ensures !('A' <= c as char <= 'Z') ==> Lower(c) == c
  {}
}
