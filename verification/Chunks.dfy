/** Sequences of equal-size chunks seen as one flat sequence. */
module Chunks {

  type byte = x: int | 0 <= x < 256

  /** `d` written over `s` at offset `o`. */
  function Splice<T>(s: seq<T>, o: nat, d: seq<T>): (r: seq<T>)
    requires o + |d| <= |s|
    ensures |r| == |s|
    ensures forall i :: 0 <= i < |s| ==> r[i] == if o <= i < o + |d| then d[i - o] else s[i]
  {
    s[..o] + d + s[o + |d|..]
  }

  /** A write continued where it stopped. */
  lemma SpliceOn<T>(s: seq<T>, o: nat, d: seq<T>, i: nat, j: nat, p: nat, now: seq<T>)
    requires i <= j <= |d| && o + |d| <= |s| && p == o + i && now == Splice(s, o, d[..i])
    ensures Splice(now, p, d[i..j]) == Splice(s, o, d[..j])
  {}

  lemma SliceOn<T>(s: seq<T>, i: nat, j: nat, k: nat)
    requires i <= j <= k <= |s|
    ensures s[i..j] + s[j..k] == s[i..k]
  {}

  /** The chunks one after the other. */
  function FlatOf<T>(chunks: seq<seq<T>>): seq<T> {
    FlatUpTo(chunks, |chunks|)
  }

  function FlatUpTo<T>(chunks: seq<seq<T>>, k: nat): seq<T>
    requires k <= |chunks|
  {
    if k == 0 then [] else FlatUpTo(chunks, k - 1) + chunks[k - 1]
  }

  predicate Uniform<T>(chunks: seq<seq<T>>, base: nat) {
    forall i :: 0 <= i < |chunks| ==> |chunks[i]| == base
  }

  /** Splitting off the first chunk instead of the last. */
  lemma FlatFirst<T>(chunks: seq<seq<T>>)
    requires chunks != []
    ensures FlatOf(chunks) == chunks[0] + FlatOf(chunks[1..])
  {
    FlatFirstUpTo(chunks, |chunks|);
  }

  lemma {:induction false} FlatFirstUpTo<T>(chunks: seq<seq<T>>, k: nat)
    requires 1 <= k <= |chunks|
    ensures FlatUpTo(chunks, k) == chunks[0] + FlatUpTo(chunks[1..], k - 1)
  {
    if k > 1 {
      FlatFirstUpTo(chunks, k - 1);
    }
  }

  lemma FlatLength<T>(chunks: seq<seq<T>>, base: nat)
    requires Uniform(chunks, base)
    ensures |FlatOf(chunks)| == |chunks| * base
  {
    LengthUpTo(chunks, base, |chunks|);
  }

  lemma {:induction false} LengthUpTo<T>(chunks: seq<seq<T>>, base: nat, k: nat)
    requires Uniform(chunks, base) && k <= |chunks|
    ensures |FlatUpTo(chunks, k)| == k * base
  {
    if k > 0 {
      LengthUpTo(chunks, base, k - 1);
      assert k * base == (k - 1) * base + base;
    }
  }

  /** Chunks added behind leave the flat prefix alone. */
  lemma FlatPrefix<T>(chunks: seq<seq<T>>, more: seq<seq<T>>)
    requires chunks <= more
    ensures FlatOf(chunks) <= FlatOf(more)
  {
    SameUpTo(chunks, more, |chunks|);
    UpToGrows(more, |chunks|, |more|);
  }

  lemma {:induction false} SameUpTo<T>(chunks: seq<seq<T>>, more: seq<seq<T>>, k: nat)
    requires chunks <= more && k <= |chunks|
    ensures FlatUpTo(chunks, k) == FlatUpTo(more, k)
  {
    if k > 0 {
      SameUpTo(chunks, more, k - 1);
    }
  }

  lemma FlatSnoc<T>(chunks: seq<seq<T>>, c: seq<T>)
    ensures FlatOf(chunks + [c]) == FlatOf(chunks) + c
  {
    SameUpTo(chunks, chunks + [c], |chunks|);
  }

  lemma {:induction false} UpToGrows<T>(chunks: seq<seq<T>>, j: nat, k: nat)
    requires j <= k <= |chunks|
    ensures FlatUpTo(chunks, j) <= FlatUpTo(chunks, k)
  {
    if j < k {
      UpToGrows(chunks, j, k - 1);
    }
  }

  // ---------------------------------------------------------------- quotients

  lemma MultipleGrows(d: int, m: nat)
    requires d >= 1
    ensures d * m >= m
  {
    assert (d - 1) * m >= 0;
  }

  /** Quotient and remainder are the only representatives in range. */
  lemma RemainderIs(v: int, q: int, r: nat, m: nat)
    requires v == q * m + r && r < m
    ensures v % m == r && v / m == q
  {
    var q', r' := v / m, v % m;
    var d := q' - q;
    assert d * m == q' * m - q * m;
    if d >= 1 { MultipleGrows(d, m); }
    if d <= -1 { MultipleGrows(-d, m); }
  }

  // ---------------------------------------------------------------- positions and chunks

  /** The chunk of a flat position: its quotient by the chunk size (`IndexIsQuotient`). */
  function ChunkIndex(p: nat, base: nat): nat
    requires base >= 1
  {
    if p < base then 0 else 1 + ChunkIndex(p - base, base)
  }

  /** The offset inside that chunk: its remainder. */
  function ChunkOffset(p: nat, base: nat): (o: nat)
    requires base >= 1
    ensures o < base
  {
    if p < base then p else ChunkOffset(p - base, base)
  }

  lemma IndexIsQuotient(p: nat, base: nat)
    requires base >= 1
    ensures ChunkIndex(p, base) == p / base && ChunkOffset(p, base) == p % base
  {
    IndexSplits(p, base);
    RemainderIs(p, ChunkIndex(p, base), ChunkOffset(p, base), base);
  }

  lemma {:induction false} IndexSplits(p: nat, base: nat)
    requires base >= 1
    ensures p == ChunkIndex(p, base) * base + ChunkOffset(p, base)
  {
    if p >= base {
      IndexSplits(p - base, base);
      var k := ChunkIndex(p - base, base);
      assert (1 + k) * base == k * base + base;
    }
  }

  /** Moving on by `m` bytes inside a chunk, or exactly to its end. */
  lemma {:induction false} IndexAdvance(p: nat, base: nat, m: nat)
    requires base >= 1 && ChunkOffset(p, base) + m <= base
    ensures ChunkOffset(p, base) + m < base ==>
              ChunkIndex(p + m, base) == ChunkIndex(p, base) && ChunkOffset(p + m, base) == ChunkOffset(p, base) + m
    ensures ChunkOffset(p, base) + m == base ==>
              ChunkIndex(p + m, base) == ChunkIndex(p, base) + 1 && ChunkOffset(p + m, base) == 0
  {
    if p >= base {
      IndexAdvance(p - base, base, m);
    }
  }

  /** The other positions of a chunk. */
  lemma {:induction false} SameChunk(p: nat, base: nat, o: nat)
    requires base >= 1 && o < base
    ensures p >= ChunkOffset(p, base)
    ensures ChunkIndex(p - ChunkOffset(p, base) + o, base) == ChunkIndex(p, base)
    ensures ChunkOffset(p - ChunkOffset(p, base) + o, base) == o
  {
    if p >= base {
      SameChunk(p - base, base, o);
    }
  }

  /** Positions of one chunk differ by their offsets. */
  lemma {:induction false} SamePlace(p: nat, q: nat, base: nat)
    requires base >= 1 && ChunkIndex(p, base) == ChunkIndex(q, base)
    ensures q - ChunkOffset(q, base) + ChunkOffset(p, base) == p
    decreases p
  {
    if p >= base {
      SamePlace(p - base, q - base, base);
    }
  }

  /** The `m` positions from `p` on, as long as they stay in one chunk. */
  lemma {:induction false} InsideChunk(base: nat, p: nat, m: nat, x: nat)
    requires base >= 1 && ChunkOffset(p, base) + m <= base
    ensures p <= x < p + m <==>
            ChunkIndex(x, base) == ChunkIndex(p, base)
            && ChunkOffset(p, base) <= ChunkOffset(x, base) < ChunkOffset(p, base) + m
    decreases p
  {
    if p >= base && x >= base { InsideChunk(base, p - base, m, x - base); }
  }

  lemma {:induction false} IndexSplitsAt(p: nat, base: nat)
    requires base >= 1
    ensures p >= ChunkOffset(p, base)
  {
    if p >= base { IndexSplitsAt(p - base, base); }
  }

  lemma {:induction false} IndexOrder(p: nat, q: nat, base: nat)
    requires base >= 1 && p <= q
    ensures ChunkIndex(p, base) <= ChunkIndex(q, base)
    decreases p
  {
    if p >= base { IndexOrder(p - base, q - base, base); }
  }

  /** A position below the end is in a chunk; the end itself is one past the last. */
  lemma {:induction false} IndexInside<T>(chunks: seq<seq<T>>, base: nat, p: nat)
    requires base >= 1 && Uniform(chunks, base) && p <= |FlatOf(chunks)|
    ensures if p < |FlatOf(chunks)| then ChunkIndex(p, base) < |chunks|
            else ChunkIndex(p, base) == |chunks| && ChunkOffset(p, base) == 0
    decreases p
  {
    if chunks != [] {
      FlatFirst(chunks);
      if p >= base {
        IndexInside(chunks[1..], base, p - base);
      }
    }
  }

  /** Part of one chunk is the corresponding part of the flat sequence. */
  lemma {:induction false} FlatSlice<T>(chunks: seq<seq<T>>, base: nat, p: nat, m: nat)
    requires base >= 1 && Uniform(chunks, base) && p < |FlatOf(chunks)| && ChunkOffset(p, base) + m <= base
    ensures ChunkIndex(p, base) < |chunks| && p + m <= |FlatOf(chunks)|
    ensures var o := ChunkOffset(p, base);
            FlatOf(chunks)[p..p + m] == chunks[ChunkIndex(p, base)][o..o + m]
    decreases p
  {
    FlatFirst(chunks);
    if p >= base {
      var rest := FlatOf(chunks[1..]);
      FlatSlice(chunks[1..], base, p - base, m);
      assert FlatOf(chunks)[p..p + m] == rest[p - base..p - base + m];
    }
  }

  /** Writing inside one chunk is writing at the corresponding place of the flat sequence. */
  lemma {:induction false} FlatSplice<T>(chunks: seq<seq<T>>, base: nat, p: nat, d: seq<T>)
    requires base >= 1 && Uniform(chunks, base) && p < |FlatOf(chunks)| && ChunkOffset(p, base) + |d| <= base
    ensures ChunkIndex(p, base) < |chunks| && p + |d| <= |FlatOf(chunks)|
    ensures var k := ChunkIndex(p, base);
            FlatOf(chunks[k := Splice(chunks[k], ChunkOffset(p, base), d)]) == Splice(FlatOf(chunks), p, d)
    decreases p
  {
    var k, o := ChunkIndex(p, base), ChunkOffset(p, base);
    IndexInside(chunks, base, p);
    var chunks' := chunks[k := Splice(chunks[k], o, d)];
    FlatFirst(chunks);
    FlatFirst(chunks');
    if p < base {
      assert chunks'[1..] == chunks[1..];
    } else {
      FlatSplice(chunks[1..], base, p - base, d);
      assert chunks'[1..] == chunks[1..][k - 1 := Splice(chunks[k], o, d)];
    }
  }

  // ---------------------------------------------------------------- room

  /** The number of chunks of `base` bytes that `n` bytes need. */
  function Needed(n: nat, base: nat): nat
    requires base >= 1
  {
    if n == 0 then 0 else if n <= base then 1 else 1 + Needed(n - base, base)
  }

  lemma NeededPositive(n: nat, base: nat)
    requires base >= 1 && n >= 1
    ensures Needed(n, base) >= 1
  {}

  /** The least multiple of `base` that is at least `n`. */
  function RoundUp(n: nat, base: nat): (r: nat)
    requires base >= 1
    ensures n <= r < n + base
  {
    if n == 0 then 0 else if n <= base then base else base + RoundUp(n - base, base)
  }

  lemma {:induction false} NeededTimes(n: nat, base: nat)
    requires base >= 1
    ensures RoundUp(n, base) == Needed(n, base) * base
  {
    if n > base {
      NeededTimes(n - base, base);
      var k := Needed(n - base, base);
      assert (1 + k) * base == k * base + base;
    }
  }

  lemma {:induction false} RoundUpIsLeast(n: nat, base: nat, q: nat)
    requires base >= 1 && q * base >= n
    ensures RoundUp(n, base) <= q * base
  {
    if n > 0 {
      assert q >= 1;
      assert (q - 1) * base == q * base - base;
      if n > base { RoundUpIsLeast(n - base, base, q - 1); }
    }
  }

  /** Rounding up by whole chunks is the ceiling of the quotient. */
  lemma NeededIsCeiling(n: nat, base: nat)
    requires base >= 1
    ensures Needed(n, base) == (n + base - 1) / base
  {
    IndexIsQuotient(n + base - 1, base);
    NeededIsIndex(n, base);
  }

  lemma {:induction false} NeededIsIndex(n: nat, base: nat)
    requires base >= 1
    ensures Needed(n, base) == ChunkIndex(n + base - 1, base)
  {
    if n > base {
      NeededIsIndex(n - base, base);
    }
  }

  /** Rounding up twice changes nothing, and nothing between rounds up differently. */
  lemma {:induction false} RoundUpTwice(q: nat, r: nat, base: nat)
    requires base >= 1 && q <= r <= RoundUp(q, base)
    ensures RoundUp(r, base) == RoundUp(q, base)
  {
    if q > base {
      RoundUpTwice(q - base, r - base, base);
    }
  }

  /** Adding the missing chunks to uniform chunks gives the rounded-up size. */
  lemma {:induction false} AddedChunks<T>(chunks: seq<seq<T>>, chunks': seq<seq<T>>, base: nat, need: nat, missing: nat)
    requires base >= 1 && Uniform(chunks, base) && Uniform(chunks', base)
    requires missing >= 1 && |FlatOf(chunks)| + missing == need
    requires |chunks'| == |chunks| + Needed(missing, base)
    ensures |FlatOf(chunks')| == RoundUp(need, base)
    decreases |chunks|
  {
    FlatFirst(chunks');
    if chunks == [] {
      FlatLength(chunks', base);
      NeededTimes(need, base);
    } else {
      FlatFirst(chunks);
      AddedChunks(chunks[1..], chunks'[1..], base, need - base, missing);
    }
  }
}
