/** Fixed-size transfers between a byte array and a socket that moves any part of what it is asked to. */
module Streams {
  import opened Chunks
  import opened Codec
  import opened FlatBuffer
  import opened GatherList
  import opened ByteArrays

  // ---------------------------------------------------------------- what a partial transfer leaves

  /** Room for `n` bytes was made and the `d` received so far are in it; no other byte changed. */
  ghost predicate Received(f: Flat, base: nat, n: nat, d: seq<byte>, f': Flat)
    requires base >= 1
  {
    && f'.position == f.position + |d|
    && f'.size == Max(f.size, f'.position)
    && |f'.bytes| == NewCapacity(f, base, n)
    && f'.position <= |f'.bytes|
    && f'.bytes[f.position..f'.position] == d
    && (forall i :: 0 <= i < |f.bytes| && !(f.position <= i < f'.position) ==>
          i < |f'.bytes| && f'.bytes[i] == f.bytes[i])
  }

  /** Receiving all of it is one write. */
  lemma ReceivedAll(f: Flat, base: nat, d: seq<byte>, f': Flat)
    requires base >= 1
    ensures Received(f, base, |d|, d, f') <==> Written(f, base, d, f')
  {}

  lemma ReceivedNothing(f: Flat, base: nat, n: nat, f': Flat)
    requires base >= 1 && FlatOk(f) && Grown(f, base, n, f')
    ensures Received(f, base, n, [], f')
  {}

  lemma RoomStays(f: Flat, base: nat, n: nat, k: nat, f1: Flat)
    requires base >= 1 && k <= n && f1.position == f.position + k && |f1.bytes| == NewCapacity(f, base, n)
    ensures NewCapacity(f1, base, n - k) == NewCapacity(f, base, n)
  {}

  /** The rest of a transfer continues it in place. */
  lemma ReceivedOn(f: Flat, base: nat, n: nat, d: seq<byte>, f1: Flat, e: seq<byte>, f2: Flat)
    requires base >= 1 && |d| <= n && Received(f, base, n, d, f1) && Received(f1, base, n - |d|, e, f2)
    ensures Received(f, base, n, d + e, f2)
  {
    var p, q := f.position, f1.position;
    RoomStays(f, base, n, |d|, f1);
    forall i | p <= i < q ensures f2.bytes[i] == d[i - p] {
      assert f2.bytes[i] == f1.bytes[i] == f1.bytes[p..q][i - p];
    }
    assert f2.bytes[p..q] == d;
    SlicesJoin(f2.bytes, p, d, e);
  }

  lemma GrownThenReceived(f: Flat, base: nat, n: nat, g: Flat, d: seq<byte>, f': Flat)
    requires base >= 1 && FlatOk(f) && Grown(f, base, n, g) && |d| <= n && f.position + n <= |g.bytes|
    requires f'.position == f.position + |d| && f'.size == Max(f.size, f'.position)
    requires f'.bytes == Splice(g.bytes, f.position, d)
    ensures Received(f, base, n, d, f')
  {
    forall i | 0 <= i < |f.bytes| && !(f.position <= i < f'.position)
      ensures i < |f'.bytes| && f'.bytes[i] == f.bytes[i]
    {
      assert g.bytes[i] == f.bytes[i];
    }
  }

  // ---------------------------------------------------------------- the socket

  /** What a transfer call returns, or that it took the address of the first entry of an empty list. */
  datatype Transfer = Moved(n: int) | NoEntries

  /** The most that one transfer call moves. */
  const MAX_TRANSFER: nat := 0x7FFF_F000

  /** A connection: what the peer sent and we have not received, and what we sent. */
  class Socket {
    var connected: bool
    var incoming: seq<byte>
    var outgoing: seq<byte>
    ghost var results: seq<int>   // what every transfer call so far returned

    constructor ()
      ensures connected && incoming == [] && outgoing == [] && results == []
    {
      connected, incoming, outgoing := true, [], [];
      results := [];
    }

    /** Any result a transfer call may give: an error, nothing, or part of `limit` bytes. */
    method Amount(limit: nat) returns (rt: int)
      modifies this`connected
      ensures rt <= limit && rt <= MAX_TRANSFER
    {
      connected := *;
      rt := *;
      if rt > limit || rt > MAX_TRANSFER {
        rt := Least(limit, MAX_TRANSFER);
      }
    }

    /** Fills the first `rt` bytes of the listed memory from what the peer sent. */
    method Recv(ba: ByteArray, iovs: seq<Iov>, n: nat) returns (rt: int)
      requires ba.Linked() && ba.position + n <= ba.capacity && ba.Lists(iovs, Pieces(ba.base, ba.position, n))
      requires this !in ba.Repr
      modifies this, ba`chunks, ba.Repr
      ensures ba.Linked() && rt <= n && outgoing == old(outgoing) && results == old(results) + [rt]
      ensures ba.position + n <= |old(ba.Bytes())|
      ensures rt <= 0 ==> incoming == old(incoming) && ba.chunks == old(ba.chunks)
      ensures rt > 0 ==> rt <= |old(incoming)| && incoming == old(incoming)[rt..]
      ensures rt > 0 ==> ba.Bytes() == Splice(old(ba.Bytes()), ba.position, old(incoming)[..rt])
    {
      if !connected {
        results := results + [-1];
        return -1;
      }
      rt := Amount(Least(n, |incoming|));
      results := results + [rt];
      if rt > 0 {
        Scatter(ba, iovs, incoming[..rt], ba.position, n);
        incoming := incoming[rt..];
      }
    }

    /** Sends the first `rt` bytes of the listed memory. */
    method Send(ba: ByteArray, iovs: seq<Iov>, n: nat) returns (rt: int)
      requires ba.Linked() && ba.position + n <= ba.capacity && ba.Lists(iovs, Pieces(ba.base, ba.position, n))
      modifies this
      ensures rt <= n && incoming == old(incoming) && ba.position + n <= |ba.Bytes()|
      ensures results == old(results) + [rt]
      ensures outgoing == old(outgoing) + if rt > 0 then ba.Bytes()[ba.position..ba.position + rt] else []
    {
      if !connected {
        results := results + [-1];
        return -1;
      }
      rt := Amount(n);
      results := results + [rt];
      if rt > 0 {
        var d := GatherOut(ba, iovs, rt, ba.position, n);
        outgoing := outgoing + d;
      }
    }
  }

  /** Spreads `d` over the pieces of the range, in order. */
  method Scatter(ba: ByteArray, iovs: seq<Iov>, d: seq<byte>, ghost p: nat, ghost n: nat)
    requires ba.Linked() && p + n <= ba.capacity && |d| <= n && ba.Lists(iovs, Pieces(ba.base, p, n))
    modifies ba`chunks, ba.Repr
    ensures ba.Linked() && p + |d| <= |old(ba.Bytes())|
    ensures ba.Bytes() == Splice(old(ba.Bytes()), p, d)
    decreases |iovs|
  {
    if |d| == 0 {
      assert Splice(ba.Bytes(), p, d) == ba.Bytes();
      return;
    }
    ghost var l := FirstEntry(ba, iovs, p, n);
    var v := iovs[0];
    var m := if v.length <= |d| then v.length else |d|;
    ba.Store(v.data, p, v.offset, d[..m]);
    ghost var was := ba.Bytes();
    assert d[m..] == d[m..|d|] && d[..|d|] == d;
    SpliceOn(old(ba.Bytes()), p, d, m, |d|, p + m, was);
    if m < |d| {
      Scatter(ba, iovs[1..], d[m..], p + l, n - l);
    } else {
      assert d[m..] == [] && Splice(was, p + m, []) == was;
    }
  }

  /** The first entry of a list and the list of the rest. */
  lemma FirstEntry(ba: ByteArray, iovs: seq<Iov>, p: nat, n: nat) returns (l: nat)
    requires ba.Linked() && n >= 1 && p + n <= ba.capacity && ba.Lists(iovs, Pieces(ba.base, p, n))
    ensures iovs != [] && l == iovs[0].length && 1 <= l <= n && iovs[0].offset == ChunkOffset(p, ba.base)
    ensures iovs[0].offset + l <= ba.base
    ensures ChunkIndex(p, ba.base) < |ba.nodes| && iovs[0].data == ba.nodes[ChunkIndex(p, ba.base)].data
    ensures ba.Lists(iovs[1..], Pieces(ba.base, p + l, n - l))
  {
    var ps := Pieces(ba.base, p, n);
    l := Least(ba.base - ChunkOffset(p, ba.base), n);
    var rest := Pieces(ba.base, p + l, n - l);
    assert ps == [Piece(ChunkIndex(p, ba.base), ChunkOffset(p, ba.base), l)] + rest;
    assert iovs[0].length == l;
    forall i | 0 <= i < |rest|
      ensures rest[i].chunk < |ba.nodes|
              && iovs[1..][i] == Iov(ba.nodes[rest[i].chunk].data, rest[i].offset, rest[i].length)
    {
      assert iovs[1..][i] == iovs[i + 1] && ps[i + 1] == rest[i];
    }
  }

  /** Collects the first `m` bytes of the pieces of the range. */
  method GatherOut(ba: ByteArray, iovs: seq<Iov>, m: nat, ghost p: nat, ghost n: nat) returns (d: seq<byte>)
    requires ba.Linked() && p + n <= ba.capacity && m <= n && ba.Lists(iovs, Pieces(ba.base, p, n))
    ensures p + m <= |ba.Bytes()| && d == ba.Bytes()[p..p + m]
    decreases |iovs|
  {
    if m == 0 {
      return [];
    }
    ghost var l := FirstEntry(ba, iovs, p, n);
    var v := iovs[0];
    var k := if v.length <= m then v.length else m;
    d := CopyEntry(ba, v, k, p);
    if k < m {
      var rest := GatherOut(ba, iovs[1..], m - k, p + l, n - l);
      d := Joined(d, rest, ba.Bytes(), p, k, m);
    }
  }

  method Joined(d: seq<byte>, e: seq<byte>, ghost s: seq<byte>, ghost p: nat, ghost k: nat, ghost m: nat)
    returns (r: seq<byte>)
    requires k <= m && p + m <= |s| && d == s[p..p + k] && e == s[p + k..p + m]
    ensures r == s[p..p + m]
  {
    r := d + e;
  }

  /** The first `k` bytes of an entry that starts at `p`. */
  method CopyEntry(ba: ByteArray, v: Iov, k: nat, ghost p: nat) returns (d: seq<byte>)
    requires ba.Linked() && p < ba.capacity && v.offset == ChunkOffset(p, ba.base) && v.offset + k <= ba.base
    requires ChunkIndex(p, ba.base) < |ba.nodes| && v.data == ba.nodes[ChunkIndex(p, ba.base)].data
    ensures p + k <= |ba.Bytes()| && d == ba.Bytes()[p..p + k]
  {
    FlatSlice(ba.chunks, ba.base, p, k);
    d := v.data[v.offset..v.offset + k];
    assert v.data[..][v.offset..v.offset + k] == d;
  }

  // ---------------------------------------------------------------- the stream

  /** A `size_t` as `int64_t` and as `int`. */
  function AsInt64(n: nat): int { Signed(0x1_0000_0000_0000_0000, n % 0x1_0000_0000_0000_0000) }
  function AsInt(n: nat): int { Signed(0x1_0000_0000, n % 0x1_0000_0000) }

  lemma SmallLength(n: nat)
    ensures n < 0x8000_0000 ==> AsInt(n) == n
    ensures n < 0x8000_0000_0000_0000 ==> AsInt64(n) == n
    ensures 0x8000_0000_0000_0000 <= n < 0x1_0000_0000_0000_0000 ==> AsInt64(n) < 0
  {}

  class SocketStream {
    const socket: Socket

    constructor (socket: Socket)
      ensures this.socket == socket
    {
      this.socket := socket;
    }

    /** One receive into the byte array: any part of `length`, placed at the position. */
    method Read(ba: ByteArray, length: nat) returns (r: Transfer)
      requires ba.Valid() && socket !in ba.Repr && this !in ba.Repr
      modifies socket, ba, ba.Repr
      ensures ba.Valid() && fresh(ba.Repr - old(ba.Repr)) && socket.outgoing == old(socket.outgoing)
      ensures r == NoEntries <==> old(socket.connected) && length == 0
      ensures r == NoEntries ==> socket.incoming == old(socket.incoming) && ba.View() == old(ba.View())
      ensures socket.results == old(socket.results) + if r.Moved? then [r.n] else []
      ensures r.Moved? ==> r.n <= length
      ensures r.Moved? && r.n <= 0 ==> socket.incoming == old(socket.incoming)
      ensures r.Moved? && r.n <= 0 ==>
                ba.View() == old(ba.View()) || Received(old(ba.View()), ba.base, length, [], ba.View())
      ensures r.Moved? && r.n > 0 ==> r.n <= |old(socket.incoming)| && socket.incoming == old(socket.incoming)[r.n..]
      ensures r.Moved? && r.n > 0 ==> Received(old(ba.View()), ba.base, length, old(socket.incoming)[..r.n], ba.View())
    {
      ba.CursorNullIff();
      if !socket.connected {
        socket.results := socket.results + [-1];
        return Moved(-1);
      }
      if length == 0 {
        return NoEntries;
      }
      var rt := Receive(ba, length);
      return Moved(rt);
    }

    method Receive(ba: ByteArray, length: nat) returns (rt: int)
      requires ba.Valid() && FlatOk(ba.View()) && length > 0 && socket !in ba.Repr && this !in ba.Repr
      modifies socket, ba, ba.Repr
      ensures ba.Valid() && fresh(ba.Repr - old(ba.Repr)) && socket.outgoing == old(socket.outgoing)
      ensures rt <= length && socket.results == old(socket.results) + [rt]
      ensures rt <= 0 ==>
                socket.incoming == old(socket.incoming) && Received(old(ba.View()), ba.base, length, [], ba.View())
      ensures rt > 0 ==> rt <= |old(socket.incoming)| && socket.incoming == old(socket.incoming)[rt..]
      ensures rt > 0 ==> Received(old(ba.View()), ba.base, length, old(socket.incoming)[..rt], ba.View())
    {
      ghost var f := ba.View();
      var n, iovs := ba.GetWriteBuffers(length);
      ghost var g := ba.View();
      RoomIsThere(f, ba.base, length, g);
      rt := socket.Recv(ba, iovs, length);
      if rt > 0 {
        var _ := ba.SetPosition(ba.position + rt);
        GrownThenReceived(f, ba.base, length, g, old(socket.incoming)[..rt], ba.View());
      } else {
        ReceivedNothing(f, ba.base, length, ba.View());
      }
    }

    /** One send of part of the readable bytes, at most `length` of them. */
    method Write(ba: ByteArray, length: nat) returns (r: Transfer)
      requires ba.Valid()
      modifies socket, ba`position, ba`size, ba`cur
      ensures ba.Valid() && ba.size == old(ba.size) && socket.incoming == old(socket.incoming)
      ensures r == NoEntries <==> old(socket.connected) && Least(length, old(ba.size - ba.position)) == 0
      ensures r.Moved? ==> r.n <= Least(length, old(ba.size - ba.position))
      ensures socket.results == old(socket.results) + if r.Moved? then [r.n] else []
      ensures ba.position == old(ba.position) + (if r.Moved? && r.n > 0 then r.n else 0) <= |ba.Bytes()|
      ensures socket.outgoing == old(socket.outgoing) + ba.Bytes()[old(ba.position)..ba.position]
    {
      ba.CursorNullIff();
      if !socket.connected {
        socket.results := socket.results + [-1];
        return Moved(-1);
      }
      if Least(length, ba.size - ba.position) == 0 {
        return NoEntries;
      }
      var rt := SendPart(ba, length);
      return Moved(rt);
    }

    method SendPart(ba: ByteArray, length: nat) returns (rt: int)
      requires ba.Valid()
      modifies socket, ba`position, ba`size, ba`cur
      ensures ba.Valid() && ba.size == old(ba.size) && socket.incoming == old(socket.incoming)
      ensures rt <= Least(length, old(ba.size - ba.position)) && socket.results == old(socket.results) + [rt]
      ensures ba.position == old(ba.position) + (if rt > 0 then rt else 0) <= |ba.Bytes()|
      ensures socket.outgoing == old(socket.outgoing) + ba.Bytes()[old(ba.position)..ba.position]
    {
      var n, iovs := ba.GetReadBuffers(length);
      rt := socket.Send(ba, iovs, n);
      if rt > 0 {
        var _ := ba.SetPosition(ba.position + rt);
      }
    }

    /** One turn of the receiving loop: `k` of the bytes `sent` have arrived, and then `k'`. */
    method ReadTurn(ba: ByteArray, left: nat, ghost f: Flat, ghost n: nat, ghost sent: seq<byte>, ghost k: nat)
        returns (len: int, ghost k': nat)
      requires ba.Valid() && socket !in ba.Repr && this !in ba.Repr
      requires 0 < left && k + left == n && k <= |sent| && PartRead(f, ba.base, n, sent, k, ba.View(), socket.incoming)
      modifies socket, ba, ba.Repr
      ensures ba.Valid() && fresh(ba.Repr - old(ba.Repr))
      ensures len <= left && k' == (if len > 0 then k + len else k) <= |sent|
      ensures socket.results == old(socket.results) + [len]
      ensures PartRead(f, ba.base, n, sent, k', ba.View(), socket.incoming)
    {
      var r := Read(ba, left);
      len := r.n;
      if len <= 0 {
        PartStays(f, ba.base, n, sent, k, old(ba.View()), ba.View(), socket.incoming);
        k' := k;
      } else {
        PartGrows(f, ba.base, n, sent, k, old(ba.View()), len, ba.View());
        k' := k + len;
      }
    }

    /**
     * Receives until `length` bytes are there: exactly the next `length` bytes of the peer, stored
     * at the old position. It gives up exactly when a transfer call returns nothing or fails, and then
     * keeps the `got` bytes that arrived before it. A length that is negative as `int64_t` receives
     * nothing, and the answer is cut to an `int`.
     */
    method ReadFixSize(ba: ByteArray, length: nat) returns (r: int, ghost got: nat, ghost calls: seq<int>)
      requires ba.Valid() && length < 0x1_0000_0000_0000_0000 && socket !in ba.Repr && this !in ba.Repr
      modifies socket, ba, ba.Repr
      ensures ba.Valid() && fresh(ba.Repr - old(ba.Repr))
      ensures got <= |old(socket.incoming)|
      ensures socket.results == old(socket.results) + calls
      ensures length < 0x8000_0000_0000_0000 ==> TransferredAs(calls, got, length, r)
      ensures length >= 0x8000_0000_0000_0000 ==> r == AsInt(length) && got == 0 && calls == []
      ensures PartRead(old(ba.View()), ba.base, length, old(socket.incoming), got, ba.View(), socket.incoming)
      ensures got == length ==> Written(old(ba.View()), ba.base, old(socket.incoming)[..length], ba.View())
    {
      SmallLength(length);
      if AsInt64(length) > 0 {
        r, got, calls := ReadAll(ba, length);
      } else {
        r, got, calls := AsInt(length), 0, [];
        ba.CursorNullIff();
        if length == 0 { ReceivedAll(ba.View(), ba.base, [], ba.View()); }
      }
    }

    /** The receiving loop. */
    method ReadAll(ba: ByteArray, length: nat) returns (r: int, ghost got: nat, ghost calls: seq<int>)
      requires ba.Valid() && socket !in ba.Repr && this !in ba.Repr
      modifies socket, ba, ba.Repr
      ensures ba.Valid() && fresh(ba.Repr - old(ba.Repr))
      ensures got <= |old(socket.incoming)|
      ensures socket.results == old(socket.results) + calls && TransferredAs(calls, got, length, r)
      ensures PartRead(old(ba.View()), ba.base, length, old(socket.incoming), got, ba.View(), socket.incoming)
      ensures got == length ==> Written(old(ba.View()), ba.base, old(socket.incoming)[..length], ba.View())
    {
      ghost var f, sent := ba.View(), socket.incoming;
      ba.CursorNullIff();
      got, calls := 0, [];
      var left: nat := length;
      while left > 0
        invariant socket.results == old(socket.results) + calls && AllMoved(calls) && Total(calls) == got
        invariant got + left == length && got <= |sent| && ba.Valid() && fresh(ba.Repr - old(ba.Repr))
        invariant socket !in ba.Repr && this !in ba.Repr
        invariant PartRead(f, ba.base, length, sent, got, ba.View(), socket.incoming)
      {
        var len;
        len, got := ReadTurn(ba, left, f, length, sent, got);
        TotalOn(calls, len);
        calls := calls + [len];
        if len <= 0 {
          return len, got, calls;
        }
        left := left - len;
      }
      ReceivedAll(f, ba.base, sent[..length], ba.View());
      return AsInt(length), got, calls;
    }

    /**
     * Sends until `length` bytes are out: exactly the bytes from the old position, in order. It gives
     * up exactly when a transfer call moves nothing or fails, with the position behind what was sent;
     * asked for more than is readable, the loop sends all there is and then takes the first entry of an
     * empty list.
     */
    method WriteFixSize(ba: ByteArray, length: nat) returns (r: Transfer, ghost calls: seq<int>)
      requires ba.Valid() && length < 0x1_0000_0000_0000_0000
      modifies socket, ba`position, ba`size, ba`cur
      ensures ba.Valid() && ba.size == old(ba.size) && old(ba.position) <= ba.position <= |ba.Bytes()|
      ensures socket.outgoing == old(socket.outgoing) + ba.Bytes()[old(ba.position)..ba.position]
      ensures socket.results == old(socket.results) + calls
      ensures length < 0x8000_0000_0000_0000 ==> SentAsAsked(r, calls, length, old(ba.position), ba.position, ba.size)
      ensures length >= 0x8000_0000_0000_0000 ==>
                r == Moved(AsInt(length)) && ba.position == old(ba.position) && calls == []
    {
      SmallLength(length);
      ba.CursorNullIff();
      if AsInt64(length) > 0 {
        r, calls := WriteAll(ba, length);
      } else {
        r, calls := Moved(AsInt(length)), [];
      }
    }

    /** One turn of the sending loop. */
    method WriteTurn(ba: ByteArray, left: nat, ghost start: nat, ghost before: seq<byte>,
                     ghost was: seq<int>, ghost calls: seq<int>)
        returns (t: Transfer, ghost calls': seq<int>)
      requires ba.Valid() && left > 0 && start <= ba.position <= |ba.Bytes()|
      requires socket.outgoing == before + ba.Bytes()[start..ba.position] && socket.results == was + calls
      modifies socket, ba`position, ba`size, ba`cur
      ensures ba.Valid() && ba.size == old(ba.size)
      ensures t.Moved? ==> t.n <= left
      ensures t == NoEntries ==> old(ba.position) == ba.size
      ensures ba.position == old(ba.position) + (if t.Moved? && t.n > 0 then t.n else 0) <= |ba.Bytes()|
      ensures socket.outgoing == before + ba.Bytes()[start..ba.position]
      ensures calls' == if t.Moved? then calls + [t.n] else calls
      ensures socket.results == was + calls'
      ensures t.Moved? ==> Total(calls') == Total(calls) + t.n
    {
      ghost var q := ba.position;
      t := Write(ba, left);
      SliceOn(ba.Bytes(), start, q, ba.position);
      calls' := if t.Moved? then calls + [t.n] else calls;
      if t.Moved? { TotalOn(calls, t.n); }
    }

    /** The sending loop. */
    method WriteAll(ba: ByteArray, length: nat) returns (r: Transfer, ghost calls: seq<int>)
      requires ba.Valid()
      modifies socket, ba`position, ba`size, ba`cur
      ensures ba.Valid() && ba.size == old(ba.size) && old(ba.position) <= ba.position <= |ba.Bytes()|
      ensures socket.outgoing == old(socket.outgoing) + ba.Bytes()[old(ba.position)..ba.position]
      ensures socket.results == old(socket.results) + calls
      ensures SentAsAsked(r, calls, length, old(ba.position), ba.position, ba.size)
    {
      ghost var start, before := ba.position, socket.outgoing;
      ba.CursorNullIff();
      calls := [];
      var left: nat := length;
      while left > 0
        invariant socket.results == old(socket.results) + calls && AllMoved(calls)
        invariant Total(calls) == ba.position - start
        invariant ba.Valid() && ba.size == old(ba.size) && start <= ba.position && ba.position + left == start + length
        invariant ba.position <= |ba.Bytes()| && socket.outgoing == before + ba.Bytes()[start..ba.position]
      {
        ghost var done := calls;
        var t;
        t, calls := WriteTurn(ba, left, start, before, old(socket.results), calls);
        if t == NoEntries {
          return t, calls;
        }
        if t.n <= 0 {
          FailedNow(done, t.n, ba.position - start);
          return t, calls;
        }
        left := left - t.n;
      }
      return Moved(AsInt(length)), calls;
    }
  }

  /** Every one of these transfer calls moved something. */
  predicate AllMoved(calls: seq<int>) { forall i :: 0 <= i < |calls| ==> calls[i] > 0 }

  function Total(calls: seq<int>): int {
    if calls == [] then 0 else Total(calls[..|calls| - 1]) + calls[|calls| - 1]
  }

  lemma TotalOn(calls: seq<int>, n: int)
    ensures Total(calls + [n]) == Total(calls) + n
  {
    assert (calls + [n])[..|calls|] == calls;
  }

  /** The last of these calls moved nothing or failed, and those before it moved `k` bytes. */
  predicate FailedAfter(calls: seq<int>, k: nat) {
    calls != [] && calls[|calls| - 1] <= 0 && AllMoved(calls[..|calls| - 1]) && Total(calls[..|calls| - 1]) == k
  }

  lemma FailedNow(calls: seq<int>, n: int, k: nat)
    requires AllMoved(calls) && Total(calls) == k && n <= 0
    ensures FailedAfter(calls + [n], k)
  {
    assert (calls + [n])[..|calls|] == calls;
  }

  /** All of it was moved, by calls that each moved something; or a call did not, and its answer is returned. */
  predicate TransferredAs(calls: seq<int>, got: nat, length: nat, r: int) {
    || (got == length && AllMoved(calls) && Total(calls) == length && r == AsInt(length))
    || (got < length && FailedAfter(calls, got) && r == calls[|calls| - 1])
  }

  /** As long as every call moves something, all of it is moved, and only then. */
  lemma AllOrFailed(calls: seq<int>, got: nat, length: nat, r: int)
    requires TransferredAs(calls, got, length, r)
    ensures got == length <==> AllMoved(calls)
  {
    if got < length { assert calls[|calls| - 1] <= 0; }
  }

  /** All of it was sent; or a call failed; or everything readable was sent and more was asked for. */
  predicate SentAsAsked(r: Transfer, calls: seq<int>, length: nat, start: nat, end: nat, size: nat) {
    || (r == Moved(AsInt(length)) && end == start + length && AllMoved(calls) && Total(calls) == length)
    || (start <= end < start + length && FailedAfter(calls, end - start) && r == Moved(calls[|calls| - 1]))
    || (r == NoEntries && start <= end == size < start + length && AllMoved(calls) && Total(calls) == end - start)
  }

  /** As long as every call moves something, all of it is sent, or all that is readable if that is less. */
  lemma AllSentOrFailed(r: Transfer, calls: seq<int>, length: nat, start: nat, end: nat, size: nat)
    requires SentAsAsked(r, calls, length, start, end, size) && start <= size
    ensures AllMoved(calls) <==> end == start + length || r == NoEntries
    ensures AllMoved(calls) && end <= size ==> end - start == Least(length, size - start)
  {
    assert calls != [] && calls[|calls| - 1] <= 0 ==> !AllMoved(calls);
  }

  /** The first `k` of the bytes `sent` by the peer have arrived and the others are still to come. */
  ghost predicate PartRead(f: Flat, base: nat, n: nat, sent: seq<byte>, k: nat, f': Flat, incoming: seq<byte>)
    requires base >= 1 && k <= |sent|
  {
    incoming == sent[k..] && (Received(f, base, n, sent[..k], f') || (k == 0 && f' == f))
  }

  lemma PartStays(f: Flat, base: nat, n: nat, sent: seq<byte>, k: nat, f1: Flat, f2: Flat, incoming: seq<byte>)
    requires base >= 1 && k <= |sent| && k <= n && PartRead(f, base, n, sent, k, f1, incoming)
    requires f2 == f1 || Received(f1, base, n - k, [], f2)
    ensures PartRead(f, base, n, sent, k, f2, incoming)
  {
    if f2 != f1 && !(k == 0 && f1 == f) {
      ReceivedOn(f, base, n, sent[..k], f1, [], f2);
      assert sent[..k] + [] == sent[..k];
    } else if f2 != f1 {
      assert sent[..0] == [];
    }
  }

  lemma PartGrows(f: Flat, base: nat, n: nat, sent: seq<byte>, k: nat, f1: Flat, m: nat, f2: Flat)
    requires base >= 1 && k <= n && k + m <= |sent| && PartRead(f, base, n, sent, k, f1, sent[k..])
    requires Received(f1, base, n - k, sent[k..][..m], f2)
    ensures PartRead(f, base, n, sent, k + m, f2, sent[k..][m..])
  {
    assert sent[k..][m..] == sent[k + m..];
    assert sent[..k] + sent[k..][..m] == sent[..k + m];
    if k == 0 && f1 == f {
      assert sent[k..][..m] == sent[..k + m];
    } else {
      ReceivedOn(f, base, n, sent[..k], f1, sent[k..][..m], f2);
    }
  }
}
