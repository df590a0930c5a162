/** Key-value strings of an HTTP request: query, form body and cookies. */
module Params {
  import opened Common
  import opened Chunks
  import opened UrlCodec

  const Equals: byte := 61
  const Ampersand: byte := 38
  const Semicolon: byte := 59

  // ---------------------------------------------------------------- case-insensitive keys

  function Lower(c: byte): byte {
    if 65 <= c <= 90 then c + 32 else c
  }

  /** The byte a C string has in front: its terminator if there is none. */
  function Head(s: seq<byte>): byte {
    if s == [] then 0 else s[0]
  }

  /** Compares up to the first difference or terminator. */
  function Casecmp(a: seq<byte>, b: seq<byte>): int {
    var x, y := Lower(Head(a)), Lower(Head(b));
    if x != y || x == 0 then x - y else Casecmp(a[1..], b[1..])
  }

  predicate Less(a: seq<byte>, b: seq<byte>) {
    Casecmp(a, b) < 0
  }

  /** What the comparison sees of a key: lower case, up to the first NUL. */
  function Canon(s: seq<byte>): seq<byte> {
    if Head(s) == 0 then [] else [Lower(s[0])] + Canon(s[1..])
  }

  lemma {:induction false} CompareSign(a: seq<byte>, b: seq<byte>)
    ensures Casecmp(a, b) == 0 <==> Canon(a) == Canon(b)
    ensures Casecmp(b, a) == -Casecmp(a, b)
  {
    var x, y := Lower(Head(a)), Lower(Head(b));
    if x == y && x != 0 {
      CompareSign(a[1..], b[1..]);
      assert Canon(a)[1..] == Canon(a[1..]) && Canon(b)[1..] == Canon(b[1..]);
    } else if x != y {
      assert Canon(a) == [] || Canon(a)[0] == x;
      assert Canon(b) == [] || Canon(b)[0] == y;
    }
  }

  lemma {:induction false} LessTransitive(a: seq<byte>, b: seq<byte>, c: seq<byte>)
    requires Casecmp(a, b) <= 0 && Casecmp(b, c) <= 0
    ensures Casecmp(a, c) <= 0
    ensures Less(a, b) || Less(b, c) ==> Less(a, c)
  {
    var x, y, z := Lower(Head(a)), Lower(Head(b)), Lower(Head(c));
    if x == y && y == z && x != 0 {
      LessTransitive(a[1..], b[1..], c[1..]);
    }
  }

  /** The order of the map is a strict weak order whose equivalence is equality of canonical keys. */
  lemma KeyOrder(a: seq<byte>, b: seq<byte>, c: seq<byte>)
    ensures !Less(a, a) && !(Less(a, b) && Less(b, a))
    ensures Less(a, b) && Less(b, c) ==> Less(a, c)
    ensures !Less(a, b) && !Less(b, a) <==> Canon(a) == Canon(b)
  {
    CompareSign(a, a);
    CompareSign(a, b);
    if Less(a, b) && Less(b, c) { LessTransitive(a, b, c); }
  }

  // ---------------------------------------------------------------- the map

  datatype Pair = Pair(key: seq<byte>, value: seq<byte>)

  /** One entry per canonical key; the entry keeps its key as it was first written. */
  type Table = map<seq<byte>, Pair>

  /** Inserting an existing key changes nothing. */
  function Insert(m: Table, p: Pair): Table {
    if Canon(p.key) in m then m else m[Canon(p.key) := p]
  }

  function InsertAll(m: Table, ps: seq<Pair>): Table
    decreases |ps|
  {
    if ps == [] then m else InsertAll(Insert(m, ps[0]), ps[1..])
  }

  /** The first pair with this canonical key. */
  function First(ps: seq<Pair>, x: seq<byte>): (r: Option<Pair>)
    ensures r.None? ==> forall i :: 0 <= i < |ps| ==> Canon(ps[i].key) != x
    ensures r.Some? ==> exists i :: 0 <= i < |ps| && ps[i] == r.value && Canon(ps[i].key) == x
                                    && forall j :: 0 <= j < i ==> Canon(ps[j].key) != x
  {
    if ps == [] then None
    else if Canon(ps[0].key) == x then Some(ps[0])
    else
      var r := First(ps[1..], x);
      assert r.Some? ==> exists i :: 0 <= i < |ps| && ps[i] == r.value && Canon(ps[i].key) == x
                                    && forall j :: 0 <= j < i ==> Canon(ps[j].key) != x by {
        if r.Some? {
          var i :| 0 <= i < |ps| - 1 && ps[1..][i] == r.value && Canon(ps[1..][i].key) == x
                   && forall j :: 0 <= j < i ==> Canon(ps[1..][j].key) != x;
          assert ps[i + 1] == r.value;
          forall j | 0 <= j < i + 1 ensures Canon(ps[j].key) != x {
            if j > 0 { assert ps[j] == ps[1..][j - 1]; }
          }
        }
      }
      r
  }

  function Lookup(m: Table, x: seq<byte>): Option<Pair> {
    if x in m then Some(m[x]) else None
  }

  /** Entries already there stay; among the new pairs the first wins per key. */
  lemma {:induction false} FirstWins(m: Table, ps: seq<Pair>, x: seq<byte>)
    ensures Lookup(InsertAll(m, ps), x) == if x in m then Some(m[x]) else First(ps, x)
    decreases |ps|
  {
    if ps != [] {
      FirstWins(Insert(m, ps[0]), ps[1..], x);
    }
  }

  lemma {:induction false} InsertKnown(m: Table, ps: seq<Pair>)
    requires forall i :: 0 <= i < |ps| ==> Canon(ps[i].key) in m
    ensures InsertAll(m, ps) == m
  {
    if ps != [] {
      InsertKnown(m, ps[1..]);
    }
  }

  lemma KeysInserted(m: Table, ps: seq<Pair>, i: nat)
    requires i < |ps|
    ensures Canon(ps[i].key) in InsertAll(m, ps)
  {
    FirstWins(m, ps, Canon(ps[i].key));
  }

  lemma {:induction false} InsertKeeps(m: Table, ps: seq<Pair>, x: seq<byte>)
    requires x in m
    ensures x in InsertAll(m, ps)
  {
    FirstWins(m, ps, x);
  }

  /** Parsing the same pairs again, with others in between, changes nothing. */
  lemma ReparseChangesNothing(m: Table, ps: seq<Pair>, others: seq<Pair>)
    ensures var m1 := InsertAll(InsertAll(m, ps), others); InsertAll(m1, ps) == m1
  {
    var m1 := InsertAll(InsertAll(m, ps), others);
    forall i | 0 <= i < |ps| ensures Canon(ps[i].key) in m1 {
      KeysInserted(m, ps, i);
      InsertKeeps(InsertAll(m, ps), others, Canon(ps[i].key));
    }
    InsertKnown(m1, ps);
  }

  // ---------------------------------------------------------------- trimming and searching

  predicate Blank(c: byte) {
    c == 32 || c == 9 || c == 13 || c == 10
  }

  function TrimLeft(s: seq<byte>): seq<byte> {
    if s != [] && Blank(s[0]) then TrimLeft(s[1..]) else s
  }

  function TrimRight(s: seq<byte>): seq<byte> {
    if s != [] && Blank(s[|s| - 1]) then TrimRight(s[..|s| - 1]) else s
  }

  function Trim(s: seq<byte>): seq<byte> {
    TrimRight(TrimLeft(s))
  }

  lemma {:induction false} TrimLeftIs(s: seq<byte>)
    ensures TrimLeft(s) == [] || !Blank(TrimLeft(s)[0])
    ensures forall c :: c in TrimLeft(s) ==> c in s
  {
    if s != [] && Blank(s[0]) {
      TrimLeftIs(s[1..]);
    }
  }

  lemma {:induction false} TrimRightIs(s: seq<byte>)
    ensures TrimRight(s) <= s
    ensures TrimRight(s) == [] || !Blank(TrimRight(s)[|TrimRight(s)| - 1])
  {
    if s != [] && Blank(s[|s| - 1]) {
      TrimRightIs(s[..|s| - 1]);
    }
  }

  /** A trimmed string has nothing to trim, and only bytes of the original. */
  lemma TrimIs(s: seq<byte>)
    ensures Trim(Trim(s)) == Trim(s)
    ensures forall c :: c in Trim(s) ==> c in s
  {
    TrimLeftIs(s);
    TrimRightIs(TrimLeft(s));
    var t := Trim(s);
    assert t != [] ==> t[0] == TrimLeft(s)[0];
    assert TrimLeft(t) == t;
  }

  /** The first index of `c` from `start` on. */
  function Find(s: seq<byte>, c: byte, start: nat): (r: Option<nat>)
    requires start <= |s|
    ensures r.Some? ==> start <= r.value < |s| && s[r.value] == c
    decreases |s| - start
  {
    if start == |s| then None else if s[start] == c then Some(start) else Find(s, c, start + 1)
  }

  lemma {:induction false} FindIs(s: seq<byte>, c: byte, start: nat, k: nat)
    requires start <= k < |s| && s[k] == c && forall j :: start <= j < k ==> s[j] != c
    ensures Find(s, c, start) == Some(k)
    decreases |s| - start
  {
    if start < k { FindIs(s, c, start + 1, k); }
  }

  lemma {:induction false} FindIsNone(s: seq<byte>, c: byte, start: nat)
    requires start <= |s| && forall j :: start <= j < |s| ==> s[j] != c
    ensures Find(s, c, start) == None
    decreases |s| - start
  {
    if start < |s| { FindIsNone(s, c, start + 1); }
  }

  /** Nothing before the index found, and nothing at all if none was. */
  lemma {:induction false} FindSkips(s: seq<byte>, c: byte, start: nat)
    requires start <= |s|
    ensures c !in s[start..if Find(s, c, start).Some? then Find(s, c, start).value else |s|]
    decreases |s| - start
  {
    if start < |s| && s[start] != c { FindSkips(s, c, start + 1); }
  }

  // ---------------------------------------------------------------- parsing

  function KeyOf(raw: seq<byte>, trim: bool): seq<byte> {
    if trim then Trim(raw) else raw
  }

  /** What one turn of the parsing loop finds. */
  datatype Turn = NoPair | LastPair(pair: Pair) | OnePair(pair: Pair, next: nat)

  /** The pair whose key starts at `pos`, with its '=' at `k` and its value up to `e`. */
  function PairAt(s: seq<byte>, pos: nat, k: nat, e: nat, trim: bool): Pair
    requires pos <= k < e <= |s|
  {
    Pair(KeyOf(s[pos..k], trim), Decode(s[k + 1..e], true))
  }

  /** The pair at `pos`: its key runs to the next '=', its value from there to the next `flag`. */
  function TurnAt(s: seq<byte>, pos: nat, flag: byte, trim: bool): (t: Turn)
    requires flag != Equals && pos <= |s|
    ensures t.OnePair? ==> pos < t.next <= |s|
  {
    match Find(s, Equals, pos)
    case None => NoPair
    case Some(k) =>
      match Find(s, flag, k)
      case None => LastPair(PairAt(s, pos, k, |s|, trim))
      case Some(e) => OnePair(PairAt(s, pos, k, e, trim), e + 1)
  }

  /** The pairs of a string from `pos` on. */
  function ParseFrom(s: seq<byte>, pos: nat, flag: byte, trim: bool): seq<Pair>
    requires flag != Equals && pos <= |s|
    decreases |s| - pos
  {
    match TurnAt(s, pos, flag, trim)
    case NoPair => []
    case LastPair(p) => [p]
    case OnePair(p, next) => [p] + ParseFrom(s, next, flag, trim)
  }

  function Parse(s: seq<byte>, flag: byte, trim: bool): seq<Pair>
    requires flag != Equals
  {
    ParseFrom(s, 0, flag, trim)
  }

  /** One turn of the parsing loop. */
  method ParseTurn(str: seq<byte>, pos: nat, flag: byte, trim: bool) returns (t: Turn)
    requires flag != Equals && pos <= |str|
    ensures t == TurnAt(str, pos, flag, trim)
  {
    var f := Find(str, Equals, pos);
    if f.None? {
      return NoPair;
    }
    var key := f.value;
    var g := Find(str, flag, key);
    var value := UrlDecode(str[key + 1..if g.Some? then g.value else |str|], true);
    var pair := Pair(KeyOf(str[pos..key], trim), value);
    return if g.Some? then OnePair(pair, g.value + 1) else LastPair(pair);
  }

  /** The parsing loop: it ends, and inserts the pairs of the string in order. */
  method ParseInto(str: seq<byte>, flag: byte, trim: bool, m: Table) returns (m': Table)
    requires flag != Equals
    ensures m' == InsertAll(m, Parse(str, flag, trim))
  {
    m' := m;
    var pos: nat := 0;
    while true
      invariant pos <= |str| && InsertAll(m', ParseFrom(str, pos, flag, trim)) == InsertAll(m, Parse(str, flag, trim))
      decreases |str| - pos
    {
      InsertTurn(m', str, pos, flag, trim);
      var t := ParseTurn(str, pos, flag, trim);
      if t.NoPair? {
        break;
      }
      m' := Insert(m', t.pair);
      if t.LastPair? {
        break;
      }
      pos := t.next;
    }
  }

  lemma InsertTurn(m: Table, s: seq<byte>, pos: nat, flag: byte, trim: bool)
    requires flag != Equals && pos <= |s|
    ensures var t := TurnAt(s, pos, flag, trim);
            InsertAll(m, ParseFrom(s, pos, flag, trim)) ==
            if t.NoPair? then m
            else if t.LastPair? then Insert(m, t.pair)
            else InsertAll(Insert(m, t.pair), ParseFrom(s, t.next, flag, trim))
  {
    var t := TurnAt(s, pos, flag, trim);
    if t.OnePair? {
      assert ([t.pair] + ParseFrom(s, t.next, flag, trim))[1..] == ParseFrom(s, t.next, flag, trim);
    }
  }

  lemma {:induction false} FindShift(s: seq<byte>, c: byte, start: nat, d: nat)
    requires d <= start <= |s|
    ensures var f, g := Find(s, c, start), Find(s[d..], c, start - d);
            f.Some? == g.Some? && (f.Some? ==> f.value == g.value + d)
    decreases |s| - start
  {
    if start < |s| {
      FindShift(s, c, start + 1, d);
    }
  }

  lemma PairShift(s: seq<byte>, d: nat, pos: nat, k: nat, e: nat, trim: bool)
    requires d <= pos <= k < e <= |s|
    ensures PairAt(s[d..], pos - d, k - d, e - d, trim) == PairAt(s, pos, k, e, trim)
  {
    assert s[d..][pos - d..k - d] == s[pos..k];
    assert s[d..][k - d + 1..e - d] == s[k + 1..e];
  }

  lemma TurnShift(s: seq<byte>, d: nat, pos: nat, flag: byte, trim: bool, r: seq<byte>) returns (t: Turn, u: Turn)
    requires flag != Equals && d <= pos <= |s| && r == s[d..]
    ensures t == TurnAt(s, pos, flag, trim) && u == TurnAt(r, pos - d, flag, trim)
    ensures t == if u.OnePair? then OnePair(u.pair, u.next + d) else u
  {
    t, u := TurnAt(s, pos, flag, trim), TurnAt(r, pos - d, flag, trim);
    FindShift(s, Equals, pos, d);
    var f := Find(s, Equals, pos);
    if f.Some? {
      var k := f.value;
      FindShift(s, flag, k, d);
      var g := Find(s, flag, k);
      PairShift(s, d, pos, k, if g.Some? then g.value else |s|, trim);
    }
  }

  /** Equal turns with equal rests parse alike. */
  lemma SameTurn(s: seq<byte>, pos: nat, r: seq<byte>, pos': nat, flag: byte, trim: bool, t: Turn, u: Turn)
    requires flag != Equals && pos <= |s| && pos' <= |r| && t == TurnAt(s, pos, flag, trim)
             && u == TurnAt(r, pos', flag, trim)
    requires if t.OnePair? then
               u.OnePair? && t.pair == u.pair && ParseFrom(s, t.next, flag, trim) == ParseFrom(r, u.next, flag, trim)
             else t == u
    ensures ParseFrom(s, pos, flag, trim) == ParseFrom(r, pos', flag, trim)
  {}

  /** Parsing from a position is parsing the string from there on. */
  lemma {:induction false} ParseShift(s: seq<byte>, d: nat, pos: nat, flag: byte, trim: bool, r: seq<byte>)
    requires flag != Equals && d <= pos <= |s| && r == s[d..]
    ensures ParseFrom(s, pos, flag, trim) == ParseFrom(r, pos - d, flag, trim)
    decreases |s| - pos
  {
    var t, u := TurnShift(s, d, pos, flag, trim, r);
    if t.OnePair? {
      ParseShift(s, d, t.next, flag, trim, r);
    }
    SameTurn(s, pos, r, pos - d, flag, trim, t, u);
  }

  // ---------------------------------------------------------------- printing and parsing back

  function Render(p: Pair, plus: bool): seq<byte> {
    p.key + [Equals] + Encode(p.value, plus)
  }

  function Join(ps: seq<Pair>, flag: byte, plus: bool): seq<byte> {
    if ps == [] then []
    else if |ps| == 1 then Render(ps[0], plus)
    else Render(ps[0], plus) + [flag] + Join(ps[1..], flag, plus)
  }

  lemma EncodedWithout(v: seq<byte>, plus: bool, flag: byte)
    requires flag in {Ampersand, Semicolon}
    ensures flag !in Encode(v, plus)
  {
    EncodedAlphabet(v, plus);
  }

  lemma RenderedParts(k: seq<byte>, v: seq<byte>, tail: seq<byte>, s: seq<byte>, flag: byte)
    requires flag != Equals && Equals !in k && flag !in v && (tail == [] || tail[0] == flag)
    requires s == k + [Equals] + v + tail
    ensures var e := |k| + 1 + |v|;
            && |s| == e + |tail| && s[0..|k|] == k && s[|k|] == Equals && s[|k| + 1..e] == v
            && (tail != [] ==> s[e] == flag)
            && (forall j :: 0 <= j < |k| ==> s[j] != Equals) && (forall j :: |k| <= j < e ==> s[j] != flag)
  {
    assert forall j :: 0 <= j < |k| ==> s[j] == k[j];
    assert forall j :: |k| < j < |k| + 1 + |v| ==> s[j] == v[j - |k| - 1];
  }

  /** A rendered pair in front is the first pair found. */
  lemma RenderedTurn(k: seq<byte>, v: seq<byte>, tail: seq<byte>, s: seq<byte>, flag: byte, trim: bool)
    requires flag != Equals && Equals !in k && flag !in v && (tail == [] || tail[0] == flag)
    requires s == k + [Equals] + v + tail
    ensures var p := Pair(KeyOf(k, trim), Decode(v, true));
            TurnAt(s, 0, flag, trim) == if tail == [] then LastPair(p) else OnePair(p, |k| + |v| + 2)
  {
    RenderedParts(k, v, tail, s, flag);
    FoundTurn(s, |k|, |k| + 1 + |v|, flag, trim);
  }

  lemma FoundTurn(s: seq<byte>, k: nat, e: nat, flag: byte, trim: bool)
    requires flag != Equals && k < e <= |s| && s[k] == Equals && (e < |s| ==> s[e] == flag)
    requires (forall j :: 0 <= j < k ==> s[j] != Equals) && (forall j :: k <= j < e ==> s[j] != flag)
    ensures TurnAt(s, 0, flag, trim) ==
            if e == |s| then LastPair(PairAt(s, 0, k, e, trim)) else OnePair(PairAt(s, 0, k, e, trim), e + 1)
  {
    FindIs(s, Equals, 0, k);
    if e < |s| { FindIs(s, flag, k, e); } else { FindIsNone(s, flag, k); }
  }

  lemma ParseLast(s: seq<byte>, flag: byte, trim: bool, p: Pair)
    requires flag != Equals && TurnAt(s, 0, flag, trim) == LastPair(p)
    ensures Parse(s, flag, trim) == [p]
  {}

  lemma ParseOne(s: seq<byte>, flag: byte, trim: bool, p: Pair, next: nat, rest: seq<byte>)
    requires flag != Equals && TurnAt(s, 0, flag, trim) == OnePair(p, next) && next <= |s| && rest == s[next..]
    ensures Parse(s, flag, trim) == [p] + Parse(rest, flag, trim)
  {
    ParseShift(s, next, next, flag, trim, rest);
  }

  /** The pairs with their keys as the parser takes them. */
  function Taken(ps: seq<Pair>, trim: bool): seq<Pair> {
    if ps == [] then [] else [Pair(KeyOf(ps[0].key, trim), ps[0].value)] + Taken(ps[1..], trim)
  }

  lemma {:induction false} ParseJoin(ps: seq<Pair>, flag: byte, plus: bool, trim: bool)
    requires flag in {Ampersand, Semicolon}
    requires forall i :: 0 <= i < |ps| ==> Equals !in ps[i].key
    ensures Parse(Join(ps, flag, plus), flag, trim) == Taken(ps, trim)
    decreases |ps|
  {
    if ps == [] {
      FindIsNone([], Equals, 0);
    } else {
      var p, rest := ps[0], ps[1..];
      var v := Encode(p.value, plus);
      var s, t := Join(ps, flag, plus), Join(rest, flag, plus);
      var tail := if rest == [] then [] else [flag] + t;
      EncodedWithout(p.value, plus, flag);
      RoundTrip(p.value, plus, true);
      assert s == p.key + [Equals] + v + tail;
      RenderedTurn(p.key, v, tail, s, flag, trim);
      var q := Pair(KeyOf(p.key, trim), p.value);
      if rest == [] {
        ParseLast(s, flag, trim, q);
      } else {
        RenderedRest(p.key, v, flag, t, s);
        ParseOne(s, flag, trim, q, |p.key| + |v| + 2, t);
        ParseJoin(rest, flag, plus, trim);
      }
    }
  }

  lemma RenderedRest(k: seq<byte>, v: seq<byte>, flag: byte, t: seq<byte>, s: seq<byte>)
    requires s == k + [Equals] + v + ([flag] + t)
    ensures |k| + |v| + 2 <= |s| && s[|k| + |v| + 2..] == t
  {}

  /** No parsed key holds a '=', and a trimmed one has nothing left to trim. */
  lemma {:induction false} ParsedKeys(s: seq<byte>, pos: nat, flag: byte, trim: bool, i: nat)
    requires flag != Equals && pos <= |s| && i < |ParseFrom(s, pos, flag, trim)|
    ensures Equals !in ParseFrom(s, pos, flag, trim)[i].key
    ensures trim ==> Trim(ParseFrom(s, pos, flag, trim)[i].key) == ParseFrom(s, pos, flag, trim)[i].key
    decreases |s| - pos
  {
    if i > 0 {
      ParsedKeys(s, TurnAt(s, pos, flag, trim).next, flag, trim, i - 1);
    } else {
      FindSkips(s, Equals, pos);
      TrimIs(s[pos..Find(s, Equals, pos).value]);
    }
  }

  lemma {:induction false} TakenPlain(ps: seq<Pair>)
    ensures Taken(ps, false) == ps
  {
    if ps != [] {
      TakenPlain(ps[1..]);
      assert ps == [ps[0]] + ps[1..];
    }
  }

  /** Printing pairs and parsing them gives the pairs back exactly when no key holds a '='. */
  lemma QueryRoundTrip(ps: seq<Pair>, plus: bool)
    ensures Parse(Join(ps, Ampersand, plus), Ampersand, false) == ps <==>
            forall i :: 0 <= i < |ps| ==> Equals !in ps[i].key
  {
    if forall i :: 0 <= i < |ps| ==> Equals !in ps[i].key {
      ParseJoin(ps, Ampersand, plus, false);
      TakenPlain(ps);
    } else {
      var i :| 0 <= i < |ps| && Equals in ps[i].key;
      var r := Parse(Join(ps, Ampersand, plus), Ampersand, false);
      if i < |r| { ParsedKeys(Join(ps, Ampersand, plus), 0, Ampersand, false, i); }
    }
  }

  /** The map parsed from printed pairs holds, per case-insensitive key, the first pair printed. */
  lemma QueryMap(ps: seq<Pair>, plus: bool, x: seq<byte>)
    requires forall i :: 0 <= i < |ps| ==> Equals !in ps[i].key
    ensures Lookup(InsertAll(map[], Parse(Join(ps, Ampersand, plus), Ampersand, false)), x) == First(ps, x)
  {
    QueryRoundTrip(ps, plus);
    FirstWins(map[], ps, x);
  }

  /** Cookies are separated by a semicolon and a space: the space is trimmed off the next key. */
  function Padded(ps: seq<Pair>): (r: seq<Pair>)
    ensures |r| == |ps|
    ensures forall i :: 0 <= i < |ps| ==> r[i] == Pair(if i == 0 then ps[0].key else [Space] + ps[i].key, ps[i].value)
  {
    seq(|ps|, i requires 0 <= i < |ps| => Pair(if i == 0 then ps[0].key else [Space] + ps[i].key, ps[i].value))
  }

  lemma {:induction false} TakenIs(ps: seq<Pair>, trim: bool)
    ensures |Taken(ps, trim)| == |ps|
    ensures forall i :: 0 <= i < |ps| ==> Taken(ps, trim)[i] == Pair(KeyOf(ps[i].key, trim), ps[i].value)
  {
    if ps != [] {
      TakenIs(ps[1..], trim);
    }
  }

  predicate CookieKey(k: seq<byte>) {
    Equals !in k && Trim(k) == k
  }

  lemma CookieRoundTrip(ps: seq<Pair>, plus: bool)
    ensures Parse(Join(Padded(ps), Semicolon, plus), Semicolon, true) == ps <==>
            forall i :: 0 <= i < |ps| ==> CookieKey(ps[i].key)
  {
    var qs := Padded(ps);
    var r := Parse(Join(qs, Semicolon, plus), Semicolon, true);
    if forall i :: 0 <= i < |ps| ==> CookieKey(ps[i].key) {
      ParseJoin(qs, Semicolon, plus, true);
      TakenIs(qs, true);
      forall i | 0 <= i < |ps| ensures r[i] == ps[i] {
        assert CookieKey(ps[i].key);
        assert ([Space] + ps[i].key)[1..] == ps[i].key;
      }
    } else {
      var i :| 0 <= i < |ps| && !CookieKey(ps[i].key);
      if i < |r| { ParsedKeys(Join(qs, Semicolon, plus), 0, Semicolon, true, i); }
    }
  }
}
