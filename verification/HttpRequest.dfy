/** The parameter tables of an HTTP request and the flag byte that remembers what was parsed. */
module HttpRequests {
  import opened Chunks
  import opened Params

  function Ascii(s: string): seq<byte> {
    seq(|s|, i requires 0 <= i < |s| => (s[i] as int) % 256)
  }

  function Header(headers: Table, name: seq<byte>): seq<byte> {
    if Canon(name) in headers then headers[Canon(name)].value else []
  }

  /** Case-insensitive search of a C string for a lower-case one. */
  predicate Contains(s: seq<byte>, needle: seq<byte>) {
    exists i :: 0 <= i <= |Canon(s)| && needle <= Canon(s)[i..]
  }

  /** The pairs of a form body; any other body has none. */
  function BodyPairs(headers: Table, body: seq<byte>): seq<Pair> {
    if Contains(Header(headers, Ascii("content-type")), Ascii("application/x-www-form-urlencoded"))
    then Parse(body, Ampersand, false) else []
  }

  function CookiePairs(headers: Table): seq<Pair> {
    Parse(Header(headers, Ascii("cookie")), Semicolon, true)
  }

  // ---------------------------------------------------------------- what is looked at

  /** The canonical form is the lower-case string up to the first NUL, byte by byte. */
  lemma {:induction false} CanonIs(s: seq<byte>)
    ensures |Canon(s)| <= |s| && (|Canon(s)| < |s| ==> s[|Canon(s)|] == 0)
    ensures forall i :: 0 <= i < |Canon(s)| ==> s[i] != 0 && Canon(s)[i] == Lower(s[i])
  {
    if s != [] && s[0] != 0 {
      CanonIs(s[1..]);
      assert forall i :: 1 <= i < |Canon(s)| ==> s[i] == s[1..][i - 1];
    }
  }

  /** `needle` occurs at `i`, in whatever case, and before any NUL. */
  predicate OccursAt(s: seq<byte>, needle: seq<byte>, i: nat) {
    && i + |needle| <= |s| && (forall j :: 0 <= j < i + |needle| ==> s[j] != 0)
    && forall j :: 0 <= j < |needle| ==> Lower(s[i + j]) == needle[j]
  }

  lemma ContainsIff(s: seq<byte>, needle: seq<byte>)
    requires needle != []
    ensures Contains(s, needle) <==> exists i :: OccursAt(s, needle, i)
  {
    CanonIs(s);
    var c := Canon(s);
    if Contains(s, needle) {
      var i :| 0 <= i <= |c| && needle <= c[i..];
      assert forall j :: 0 <= j < |needle| ==> needle[j] == c[i..][j] == c[i + j];
      assert OccursAt(s, needle, i);
    }
    if i: nat :| OccursAt(s, needle, i) {
      assert |c| < |s| ==> s[|c|] == 0;
      assert i + |needle| <= |c|;
      assert c[i..][..|needle|] == needle;
    }
  }

  /** A body counts exactly when its content type names a form, in whatever case and with whatever around it. */
  lemma BodyPairsIff(headers: Table, body: seq<byte>)
    ensures var form := exists i ::
              OccursAt(Header(headers, Ascii("content-type")), Ascii("application/x-www-form-urlencoded"), i);
            BodyPairs(headers, body) == if form then Parse(body, Ampersand, false) else []
  {
    ContainsIff(Header(headers, Ascii("content-type")), Ascii("application/x-www-form-urlencoded"));
  }

  /** A header is found under its name in any case; of several the first. */
  lemma HeaderIsFirst(hs: seq<Pair>, name: seq<byte>)
    ensures Header(InsertAll(map[], hs), name) ==
            if First(hs, Canon(name)).Some? then First(hs, Canon(name)).value.value else []
  {
    FirstWins(map[], hs, Canon(name));
  }

  /** A cookie header printed from pairs gives these pairs. */
  lemma CookiesOfHeader(headers: Table, ps: seq<Pair>, plus: bool)
    requires Header(headers, Ascii("cookie")) == Join(Padded(ps), Semicolon, plus)
    ensures CookiePairs(headers) == ps <==> forall i :: 0 <= i < |ps| ==> CookieKey(ps[i].key)
  {
    CookieRoundTrip(ps, plus);
  }

  class HttpRequest {
    const query: seq<byte>
    const body: seq<byte>
    const headers: Table
    var params: Table
    var cookies: Table
    var flag: bv8

    constructor (query: seq<byte>, body: seq<byte>, headers: Table)
      ensures this.query == query && this.body == body && this.headers == headers
      ensures params == map[] && cookies == map[] && flag == 0
    {
      this.query, this.body, this.headers := query, body, headers;
      params, cookies, flag := map[], map[], 0;
    }

    /** Parses the query every time it is called. */
    method InitQueryParam()
      modifies this`params, this`flag
      ensures params == InsertAll(old(params), Parse(query, Ampersand, false)) && flag == old(flag) | 1
    {
      params := ParseInto(query, Ampersand, false, params);
      flag := flag | 1;
    }

    /** Parses the body the first time only, and only a form. */
    method InitBodyParam()
      modifies this`params, this`flag
      ensures params == if old(flag) & 2 != 0 then old(params) else InsertAll(old(params), BodyPairs(headers, body))
      ensures flag == old(flag) | 2
    {
      if flag & 2 != 0 {
        return;
      }
      if !Contains(Header(headers, Ascii("content-type")), Ascii("application/x-www-form-urlencoded")) {
        flag := flag | 2;
        return;
      }
      params := ParseInto(body, Ampersand, false, params);
      flag := flag | 2;
    }

    /** Parses the cookie header the first time only. */
    method InitCookies()
      modifies this`cookies, this`flag
      ensures cookies == if old(flag) & 4 != 0 then old(cookies) else InsertAll(old(cookies), CookiePairs(headers))
      ensures flag == old(flag) | 4
    {
      if flag & 4 != 0 {
        return;
      }
      var cookie := Header(headers, Ascii("cookie"));
      if |cookie| == 0 {
        flag := flag | 4;
        return;
      }
      cookies := ParseInto(cookie, Semicolon, true, cookies);
      flag := flag | 4;
    }

    /** All three tables: a query pair wins over a body pair with the same key. */
    method InitParam()
      modifies this
      ensures params == var q := InsertAll(old(params), Parse(query, Ampersand, false));
                        if old(flag) & 2 != 0 then q else InsertAll(q, BodyPairs(headers, body))
      ensures cookies == if old(flag) & 4 != 0 then old(cookies) else InsertAll(old(cookies), CookiePairs(headers))
      ensures flag & 2 != 0 && flag & 4 != 0
    {
      InitQueryParam();
      InitBodyParam();
      InitCookies();
    }

    /** However often it is called, only the first call changes a table. */
    method InitRepeatedly(times: nat)
      requires times >= 1
      modifies this
      ensures params == var q := InsertAll(old(params), Parse(query, Ampersand, false));
                        if old(flag) & 2 != 0 then q else InsertAll(q, BodyPairs(headers, body))
      ensures cookies == if old(flag) & 4 != 0 then old(cookies) else InsertAll(old(cookies), CookiePairs(headers))
    {
      InitParam();
      ghost var p, c := params, cookies;
      ghost var others := if old(flag) & 2 != 0 then [] else BodyPairs(headers, body);
      ReparseChangesNothing(old(params), Parse(query, Ampersand, false), others);
      var i := 1;
      while i < times
        invariant params == p && cookies == c && flag & 2 != 0 && flag & 4 != 0
      {
        InitParam();
        i := i + 1;
      }
    }
  }
}
