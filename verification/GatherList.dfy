/** The pieces of a flat range that lie in one chunk each: what an iovec list describes. */
module GatherList {
  import opened Chunks

  datatype Piece = Piece(chunk: nat, offset: nat, length: nat)

  /** The pieces of the range of `n` bytes from `p`. */
  function Pieces(base: nat, p: nat, n: nat): seq<Piece>
    requires base >= 1
    decreases n
  {
    if n == 0 then [] else
      var o := ChunkOffset(p, base);
      var m := Least(base - o, n);
      [Piece(ChunkIndex(p, base), o, m)] + Pieces(base, p + m, n - m)
  }

  function Least(a: nat, b: nat): nat {
    if a <= b then a else b
  }

  /** A range continued where its first pieces stop. */
  lemma PiecesOn(base: nat, whole: seq<Piece>, done: seq<Piece>, q: nat, left: nat, m: nat)
    requires base >= 1 && left >= 1 && m == Least(base - ChunkOffset(q, base), left)
    requires whole == done + Pieces(base, q, left)
    ensures whole == done + [Piece(ChunkIndex(q, base), ChunkOffset(q, base), m)] + Pieces(base, q + m, left - m)
  {}

  /** Each piece is non-empty and inside one chunk, and each lies in the chunk after the one before. */
  lemma {:induction false} PiecesShape(base: nat, p: nat, n: nat, i: nat)
    requires base >= 1 && i < |Pieces(base, p, n)|
    ensures var c := Pieces(base, p, n)[i];
            c.length >= 1 && c.offset + c.length <= base && c.chunk == ChunkIndex(p, base) + i
            && c.offset == if i == 0 then ChunkOffset(p, base) else 0
    decreases n
  {
    var m := Least(base - ChunkOffset(p, base), n);
    if i > 0 {
      IndexAdvance(p, base, m);
      PiecesShape(base, p + m, n - m, i - 1);
    }
  }

  /** The byte at flat position `x` is in one of the pieces. */
  predicate Covers(ps: seq<Piece>, base: nat, x: nat)
    requires base >= 1
  {
    exists i :: 0 <= i < |ps| && ps[i].chunk == ChunkIndex(x, base)
                && ps[i].offset <= ChunkOffset(x, base) < ps[i].offset + ps[i].length
  }

  /** The pieces of a range hold the bytes of that range and no other. */
  lemma {:induction false} PiecesCover(base: nat, p: nat, n: nat, x: nat)
    requires base >= 1
    ensures Covers(Pieces(base, p, n), base, x) <==> p <= x < p + n
    decreases n
  {
    if n > 0 {
      var m := Least(base - ChunkOffset(p, base), n);
      InsideChunk(base, p, m, x);
      PiecesCover(base, p + m, n - m, x);
      CoversCons(Piece(ChunkIndex(p, base), ChunkOffset(p, base), m), Pieces(base, p + m, n - m), base, x);
    }
  }

  lemma CoversCons(c: Piece, ps: seq<Piece>, base: nat, x: nat)
    requires base >= 1
    ensures Covers([c] + ps, base, x) <==>
            (c.chunk == ChunkIndex(x, base) && c.offset <= ChunkOffset(x, base) < c.offset + c.length)
            || Covers(ps, base, x)
  {
    var all := [c] + ps;
    assert all[0] == c && forall i :: 0 <= i < |ps| ==> all[i + 1] == ps[i];
    if Covers(ps, base, x) {
      var i :| 0 <= i < |ps| && ps[i].chunk == ChunkIndex(x, base)
               && ps[i].offset <= ChunkOffset(x, base) < ps[i].offset + ps[i].length;
      assert all[i + 1] == ps[i];
    }
  }

  /** The list of a range reaches bytes at or past `size` exactly when the range does. */
  lemma PiecesBeyond(base: nat, p: nat, n: nat, size: nat)
    requires base >= 1
    ensures (exists x :: size <= x && Covers(Pieces(base, p, n), base, x)) <==> n > 0 && p + n > size
  {
    forall x | size <= x ensures Covers(Pieces(base, p, n), base, x) <==> p <= x < p + n {
      PiecesCover(base, p, n, x);
    }
    if n > 0 && p + n > size { PiecesCover(base, p, n, p + n - 1); }
  }

  /** The pieces name existing chunks and stay inside them. */
  ghost predicate Describes<T>(chunks: seq<seq<T>>, ps: seq<Piece>) {
    forall i :: 0 <= i < |ps| ==> ps[i].chunk < |chunks| && ps[i].offset + ps[i].length <= |chunks[ps[i].chunk]|
  }

  /** The bytes the pieces describe, in order. */
  ghost function Gather<T>(chunks: seq<seq<T>>, ps: seq<Piece>): seq<T>
    requires Describes(chunks, ps)
  {
    if ps == [] then []
    else chunks[ps[0].chunk][ps[0].offset..ps[0].offset + ps[0].length] + Gather(chunks, ps[1..])
  }

  /** Together the pieces of a range inside the capacity are that range: nothing skipped, repeated or reordered. */
  lemma {:induction false} GatherIsSlice<T>(chunks: seq<seq<T>>, base: nat, p: nat, n: nat)
    requires base >= 1 && Uniform(chunks, base) && p + n <= |FlatOf(chunks)|
    ensures Describes(chunks, Pieces(base, p, n))
    ensures Gather(chunks, Pieces(base, p, n)) == FlatOf(chunks)[p..p + n]
    decreases n
  {
    if n > 0 {
      var s, ps := FlatOf(chunks), Pieces(base, p, n);
      var m := Least(base - ChunkOffset(p, base), n);
      FlatSlice(chunks, base, p, m);
      GatherIsSlice(chunks, base, p + m, n - m);
      assert ps[1..] == Pieces(base, p + m, n - m);
      GatherCons(chunks, ps, s, p, m, n);
    }
  }

  lemma GatherCons<T>(chunks: seq<seq<T>>, ps: seq<Piece>, s: seq<T>, p: nat, m: nat, n: nat)
    requires ps != [] && ps[0].chunk < |chunks| && ps[0].offset + ps[0].length <= |chunks[ps[0].chunk]|
    requires Describes(chunks, ps[1..]) && p + n <= |s| && m <= n
    requires s[p..p + m] == chunks[ps[0].chunk][ps[0].offset..ps[0].offset + ps[0].length]
    requires s[p + m..p + n] == Gather(chunks, ps[1..])
    ensures Describes(chunks, ps) && s[p..p + n] == Gather(chunks, ps)
  {
    forall i | 0 <= i < |ps|
      ensures ps[i].chunk < |chunks| && ps[i].offset + ps[i].length <= |chunks[ps[i].chunk]|
    {
      if i > 0 { assert ps[i] == ps[1..][i - 1]; }
    }
    assert s[p..p + n] == s[p..p + m] + s[p + m..p + n];
  }
}
