/** The chunked buffer with its cached cursor, proved against the flat buffer. */
module ByteArrays {
  import opened Common
  import opened Chunks
  import opened FlatBuffer
  import opened GatherList

  /** One chunk; its bytes start out with any values. */
  class Node {
    const data: array<byte>
    var next: Node?

    constructor (size: nat)
      ensures fresh(data) && data.Length == size && next == null
    {
      data := new byte[size];
      next := null;
    }
  }

  method Memcpy(data: array<byte>, npos: nat, d: seq<byte>)
    requires npos + |d| <= data.Length
    modifies data
    ensures data[..] == Splice(old(data[..]), npos, d)
  {
    forall i | 0 <= i < |d| {
      data[npos + i] := d[i];
    }
  }

  /** One entry of a gather list: part of a node's memory. */
  datatype Iov = Iov(data: array<byte>, offset: nat, length: nat)

  class ByteArray {
    const hostLittle: bool
    const base: nat
    var position: nat
    var capacity: nat
    var size: nat
    var little: bool
    var root: Node
    var cur: Node?
    ghost var nodes: seq<Node>
    ghost var chunks: seq<seq<byte>>   // the bytes of the nodes
    ghost var Repr: set<object>        // the nodes and their memory

    // -------------------------------------------------------------- invariant and views

    /** The list from the root is `nodes`, without sharing. */
    ghost predicate Listed()
      reads this`nodes, this`root, this`Repr, Repr
    {
      && base >= 1 && this !in Repr
      && |nodes| >= 1 && root == nodes[0]
      && (forall i :: 0 <= i < |nodes| ==> nodes[i] in Repr && nodes[i].data in Repr)
      && (forall i {:trigger nodes[i].next} :: 0 <= i < |nodes| ==> nodes[i].next == NodeAt(i + 1))
      && (forall i, j :: 0 <= i < j < |nodes| ==> nodes[i] != nodes[j] && nodes[i].data != nodes[j].data)
    }

    /** The nodes hold `chunks`, of `base` bytes each. */
    ghost predicate Stored()
      reads this`nodes, this`chunks, this`capacity, this`Repr, Repr
    {
      && |chunks| == |nodes|
      && (forall i :: 0 <= i < |nodes| ==> nodes[i].data in Repr && nodes[i].data[..] == chunks[i])
      && Uniform(chunks, base)
      && capacity == |Bytes()|
    }

    ghost predicate Linked()
      reads this`nodes, this`root, this`chunks, this`capacity, this`Repr, Repr
    {
      Listed() && Stored()
    }

    ghost function NodeAt(k: nat): Node?
      reads this`nodes
    {
      if k < |nodes| then nodes[k] else null
    }

    /** The cursor is the node of the position, and null exactly at the end of capacity. */
    ghost predicate CursorOk()
      reads this`nodes, this`position, this`capacity, this`cur
    {
      base >= 1 && position <= capacity && cur == NodeAt(ChunkIndex(position, base))
    }

    ghost predicate Valid()
      reads this, Repr
    {
      Linked() && CursorOk() && position <= size <= capacity && !little
    }

    ghost function Bytes(): seq<byte>
      reads this`chunks
    {
      FlatOf(chunks)
    }

    ghost function View(): Flat
      reads this
    {
      Flat(Bytes(), position, size)
    }

    /** The invariant of the class, read off: the cursor is null exactly at the end of capacity. */
    lemma CursorNullIff()
      requires Valid()
      ensures cur == null <==> position == capacity
      ensures cur != null ==> position / base < |nodes| && cur == nodes[position / base]
      ensures FlatOk(View()) && |View().bytes| == capacity == |nodes| * base
    {
      IndexInside(chunks, base, position);
      IndexIsQuotient(position, base);
      FlatLength(chunks, base);
    }

    /** The capacity is a whole number of nodes. */
    lemma CapacityWhole()
      requires Linked()
      ensures ChunkOffset(capacity, base) == 0
    {
      IndexInside(chunks, base, capacity);
    }

    // -------------------------------------------------------------- construction

    constructor (baseSize: nat, hostLittle: bool)
      requires baseSize >= 1
      ensures Valid() && fresh(Repr)
      ensures base == baseSize && this.hostLittle == hostLittle
      ensures position == 0 && size == 0 && capacity == baseSize
    {
      this.hostLittle := hostLittle;
      base := baseSize;
      position, capacity, size, little := 0, baseSize, 0, false;
      var n := new Node(baseSize);
      root, cur := n, n;
      nodes := [n];
      chunks := [n.data[..]];
      Repr := {n, n.data};
      new;
      assert FlatUpTo(chunks, 0) == [];
    }

    /** Whatever is asked for, the order ends up big endian. */
    method SetIsLittleEndian(val: bool)
      requires Valid()
      modifies this`little
      ensures Valid() && !little
    {
      if val {
        little := true;
      }
      little := false;
    }

    // -------------------------------------------------------------- capacity

    /** Links one new node behind the last. */
    method Link(tail: Node) returns (node: Node)
      requires Listed() && tail == nodes[|nodes| - 1]
      modifies this`nodes, this`Repr, tail`next
      ensures Listed() && fresh(Repr - old(Repr)) && fresh(node)
      ensures nodes == old(nodes) + [node] && node.data.Length == base
    {
      node := new Node(base);
      tail.next := node;
      nodes := nodes + [node];
      Repr := Repr + {node, node.data};
    }

    /** Accounts for a node that was just linked. */
    method AddChunk(node: Node)
      requires Listed() && nodes[|nodes| - 1] == node && node.data.Length == base
      requires |chunks| == |nodes| - 1 && Uniform(chunks, base) && capacity == |Bytes()|
      requires forall i :: 0 <= i < |chunks| ==> nodes[i].data[..] == chunks[i]
      modifies this`chunks, this`capacity
      ensures Linked() && chunks == old(chunks) + [node.data[..]]
    {
      ghost var c := node.data[..];
      FlatSnoc(chunks, c);
      chunks := chunks + [c];
      capacity := capacity + base;
    }

    method Append(tail: Node) returns (node: Node)
      requires Linked() && tail == nodes[|nodes| - 1]
      modifies this`nodes, this`chunks, this`Repr, this`capacity, tail`next
      ensures Linked() && fresh(Repr - old(Repr)) && fresh(node)
      ensures nodes == old(nodes) + [node]
      ensures chunks == old(chunks) + [node.data[..]]
    {
      node := Link(tail);
      AddChunk(node);
    }

    method LastNode() returns (tail: Node)
      requires Linked()
      ensures tail == nodes[|nodes| - 1]
    {
      tail := root;
      ghost var j := 0;
      while tail.next != null
        invariant j < |nodes| && tail == nodes[j]
        decreases |nodes| - j
      {
        tail := tail.next;
        j := j + 1;
      }
    }

    method Extend(last: Node, count: nat) returns (first: Node?)
      requires Linked() && last == nodes[|nodes| - 1]
      modifies this`nodes, this`chunks, this`Repr, this`capacity, last`next
      ensures Linked() && fresh(Repr - old(Repr))
      ensures |nodes| == |old(nodes)| + count && old(nodes) <= nodes && old(chunks) <= chunks
      ensures first == if count == 0 then null else nodes[|old(nodes)|]
    {
      first := null;
      var tmp := last;
      var i := 0;
      while i < count
        invariant 0 <= i <= count
        invariant Linked() && fresh(Repr - old(Repr))
        invariant |nodes| == |old(nodes)| + i && old(nodes) <= nodes && old(chunks) <= chunks
        invariant tmp == nodes[|nodes| - 1]
        invariant if i == 0 then tmp == last else fresh(tmp)
        invariant first == if i == 0 then null else nodes[|old(nodes)|]
      {
        var node := Append(tmp);
        if first == null {
          first := node;
        }
        tmp := node;
        i := i + 1;
      }
    }

    /** The whole number of nodes that hold `n` bytes. */
    method NodesFor(n: nat) returns (count: nat)
      requires base >= 1
      ensures count == Needed(n, base)
    {
      NeededIsCeiling(n, base);
      count := (n + base - 1) / base;
    }

    /** Adds the nodes for `missing` bytes past the capacity. */
    method Enlarge(missing: nat) returns (first: Node)
      requires Linked() && missing >= 1
      modifies this, Repr
      ensures Linked() && fresh(Repr - old(Repr))
      ensures position == old(position) && size == old(size) && cur == old(cur) && little == old(little)
      ensures old(nodes) <= nodes && |nodes| > |old(nodes)| && first == nodes[|old(nodes)|]
      ensures old(Bytes()) <= Bytes() && |Bytes()| == RoundUp(|old(Bytes())| + missing, base)
    {
      var count := NodesFor(missing);
      NeededPositive(missing, base);
      var tail := LastNode();
      first := Extend(tail, count);
      AddedChunks(old(chunks), chunks, base, |FlatOf(old(chunks))| + missing, missing);
      FlatPrefix(old(chunks), chunks);
    }

    method PointAt(node: Node?)
      requires Linked()
      modifies this`cur
      ensures Linked() && cur == node
    {
      cur := node;
    }

    /** Adds nodes behind a full buffer's end and repairs a null cursor. */
    method Grow(n: nat, oldCap: nat)
      requires Valid() && oldCap == capacity - position < n
      modifies this, Repr
      ensures Valid() && fresh(Repr - old(Repr))
      ensures Grown(old(View()), base, n, View())
      ensures old(nodes) <= nodes
    {
      IndexInside(chunks, base, position);
      var first := Enlarge(n - oldCap);
      if oldCap == 0 {
        PointAt(first);
      }
      assert CursorOk();
    }

    /** Makes room for `n` bytes with the least number of nodes. */
    method AddCapacity(n: nat)
      requires Valid()
      modifies this, Repr
      ensures Valid() && fresh(Repr - old(Repr))
      ensures Grown(old(View()), base, n, View())
      ensures old(nodes) <= nodes
    {
      if n == 0 {
        return;
      }
      var oldCap := capacity - position;
      if oldCap >= n {
        return;
      }
      Grow(n, oldCap);
    }

    // -------------------------------------------------------------- writing

    /** The node of the position `m` bytes on from `p`, inside the node of `p` or at its end. */
    method NextNode(node: Node, ghost p: nat, npos: nat, m: nat) returns (next: Node?)
      requires Linked() && p < capacity && node == NodeAt(ChunkIndex(p, base))
      requires npos == ChunkOffset(p, base) && npos + m <= base
      ensures next == NodeAt(ChunkIndex(p + m, base)) && p + m <= capacity
    {
      IndexAdvance(p, base, m);
      FlatSlice(chunks, base, p, m);
      next := if node.data.Length == npos + m then node.next else node;
    }

    /** The cursor is not null before the end of capacity. */
    lemma CursorInside()
      requires Linked() && CursorOk()
      ensures position < capacity ==> cur != null
      ensures position == capacity ==> cur == null
    {
      IndexInside(chunks, base, position);
    }

    /** Copies `d` into the node of `p`, whose memory is `data`; only that range changes. */
    method Store(data: array<byte>, ghost p: nat, npos: nat, d: seq<byte>)
      requires Linked() && p < capacity && ChunkIndex(p, base) < |nodes| && data == nodes[ChunkIndex(p, base)].data
      requires npos == ChunkOffset(p, base) && npos + |d| <= base
      modifies this`chunks, Repr
      ensures Linked() && p + |d| <= |old(Bytes())| == |Bytes()|
      ensures Bytes() == Splice(old(Bytes()), p, d)
    {
      ghost var k := ChunkIndex(p, base);
      FlatSplice(chunks, base, p, d);
      assert data[..] == chunks[k];
      Memcpy(data, npos, d);
      chunks := chunks[k := Splice(chunks[k], npos, d)];
    }

    /** Moves on by `m` bytes; `node` is where the cursor then belongs. */
    method MoveTo(node: Node?, m: nat)
      requires Linked() && position + m <= capacity && node == NodeAt(ChunkIndex(position + m, base))
      modifies this`position, this`cur
      ensures Linked() && CursorOk() && cur == node && position == old(position) + m
    {
      position := position + m;
      cur := node;
    }

    /** Copies `d` into the cursor's node and moves behind it: to the next node if this one is full. */
    method WritePiece(npos: nat, d: seq<byte>)
      requires Linked() && CursorOk() && position < capacity
      requires npos == ChunkOffset(position, base) && npos + |d| <= base
      modifies this`position, this`cur, this`chunks, Repr
      ensures Linked() && CursorOk()
      ensures position == old(position) + |d| <= |old(Bytes())|
      ensures Bytes() == Splice(old(Bytes()), old(position), d)
    {
      CursorInside();
      var next := NextNode(cur, position, npos, |d|);
      Store(cur.data, position, npos, d);
      MoveTo(next, |d|);
    }

    /** One turn of the copying loop: bytes `i` to `j` of `buf`, of which `i` are copied already. */
    method CopyTurn(buf: seq<byte>, i: nat, j: nat, npos: nat, ghost was: seq<byte>, ghost start: nat)
      requires Linked() && CursorOk() && i <= j <= |buf| && start + |buf| <= |was|
      requires position == start + i < capacity && Bytes() == Splice(was, start, buf[..i])
      requires npos == ChunkOffset(position, base) && npos + (j - i) <= base
      modifies this`position, this`cur, this`chunks, Repr
      ensures Linked() && CursorOk() && position == start + j
      ensures Bytes() == Splice(was, start, buf[..j])
      ensures npos + (j - i) == base ==> ChunkOffset(position, base) == 0
    {
      SpliceOn(was, start, buf, i, j, position, Bytes());
      IndexAdvance(position, base, j - i);
      WritePiece(npos, buf[i..j]);
    }

    /** The copying loop of `write`: each piece is the rest of the buffer or what still fits into the node. */
    method CopyIn(buf: seq<byte>)
      requires Linked() && CursorOk() && |buf| > 0 && position + |buf| <= capacity
      modifies this`position, this`cur, this`chunks, Repr
      ensures Linked() && CursorOk()
      ensures position == old(position) + |buf| <= |old(Bytes())|
      ensures Bytes() == Splice(old(Bytes()), old(position), buf)
    {
      ghost var was, start := Bytes(), position;
      var npos := OffsetOf(position);
      var ncap := base - npos;
      var bpos, left: nat := 0, |buf|;
      assert Splice(was, start, buf[..0]) == was;
      while left > 0
        invariant bpos + left == |buf| && position == start + bpos
        invariant Linked() && CursorOk() && start + |buf| <= capacity == |was|
        invariant left > 0 ==> npos == ChunkOffset(position, base) && ncap == base - npos
        invariant Bytes() == Splice(was, start, buf[..bpos])
      {
        var m := if ncap >= left then left else ncap;
        CopyTurn(buf, bpos, bpos + m, npos, was, start);
        bpos, left := bpos + m, left - m;
        npos, ncap := 0, base;
      }
      assert buf[..bpos] == buf;
    }

    /** Writes at the position: nothing outside the written range changes. */
    method Write(buf: seq<byte>)
      requires Valid()
      modifies this, Repr
      ensures Valid() && fresh(Repr - old(Repr))
      ensures Written(old(View()), base, buf, View())
    {
      CursorNullIff();
      if |buf| == 0 {
        return;
      }
      AddCapacity(|buf|);
      ghost var grown := View();
      RoomIsThere(old(View()), base, |buf|, grown);
      Overwrite(buf);
      GrowThenSplice(old(View()), base, buf, grown, View());
    }

    /** There is room: copies, and raises the size if the position passed it. */
    method Overwrite(buf: seq<byte>)
      requires Valid() && |buf| > 0 && position + |buf| <= capacity
      modifies this`position, this`cur, this`size, this`chunks, Repr
      ensures Valid() && position == old(position) + |buf| <= |old(Bytes())| && size == Max(old(size), position)
      ensures Bytes() == Splice(old(Bytes()), old(position), buf)
    {
      CopyIn(buf);
      if position > size {
        size := position;
      }
    }

    /** Refuses a position past the capacity; one past the size raises the size. */
    method SetPosition(val: nat) returns (ok: bool)
      requires Valid()
      modifies this`position, this`size, this`cur
      ensures Valid() && ok == (val <= capacity)
      ensures ok ==> MovedTo(old(View()), val) == Some(View())
      ensures !ok ==> MovedTo(old(View()), val) == None && View() == old(View())
    {
      if val > capacity {
        return false;
      }
      var node := NodeOf(val);
      Place(val, node);
      return true;
    }

    method Place(val: nat, node: Node?)
      requires Valid() && val <= capacity && node == NodeAt(ChunkIndex(val, base))
      modifies this`position, this`size, this`cur
      ensures Valid() && position == val && size == Max(old(size), val)
    {
      position := val;
      if position > size {
        size := position;
      }
      cur := node;
    }

    /** Walks from the root to the node of a position. */
    method NodeOf(val: nat) returns (node: Node?)
      requires Linked() && val <= capacity
      ensures node == NodeAt(ChunkIndex(val, base))
    {
      IndexInside(chunks, base, val);
      var rest: nat := val;
      node := root;
      ghost var k := 0;
      while rest > node.data.Length
        invariant k < |nodes| && node == nodes[k]
        invariant k + ChunkIndex(rest, base) == ChunkIndex(val, base)
                  && ChunkOffset(rest, base) == ChunkOffset(val, base)
        decreases rest
      {
        rest := rest - node.data.Length;
        node := node.next;
        k := k + 1;
      }
      if rest == node.data.Length {
        node := node.next;
      }
    }

    /** Back to one node, whose bytes stay what they were. */
    method Clear()
      requires Valid()
      modifies this, Repr
      ensures Valid() && Repr <= old(Repr)
      ensures base <= |old(Bytes())| && View() == Flat(old(Bytes())[..base], 0, 0)
    {
      FlatFirst(chunks);
      position, size := 0, 0;
      capacity := base;
      cur := root;
      root.next := null;
      nodes, chunks := [root], [chunks[0]];
      Repr := {root, root.data};
      assert FlatUpTo(chunks, 0) == [];
    }

    // -------------------------------------------------------------- reading

    /** Part of one node, and the node of the position behind it. */
    method ReadPiece(node: Node, ghost p: nat, npos: nat, m: nat) returns (d: seq<byte>, next: Node?)
      requires Linked() && p < capacity && node == NodeAt(ChunkIndex(p, base))
      requires npos == ChunkOffset(p, base) && npos + m <= base
      ensures next == NodeAt(ChunkIndex(p + m, base)) && p + m <= |Bytes()| && d == Bytes()[p..p + m]
    {
      next := NextNode(node, p, npos, m);
      FlatSlice(chunks, base, p, m);
      d := node.data[npos..npos + m];
      assert node.data[..][npos..npos + m] == d;
    }

    /** A node is reached exactly below the capacity. */
    lemma NodeIff(p: nat)
      requires Linked()
      ensures NodeAt(ChunkIndex(p, base)) != null <==> p < capacity
    {
      if p <= capacity {
        IndexInside(chunks, base, p);
      } else {
        IndexInside(chunks, base, capacity);
        IndexOrder(capacity, p, base);
      }
    }

    /** What the reading loop keeps: `d` is `s` from `p` to `q`, and `left` more bytes are to come from `node`. */
    ghost predicate Copying(s: seq<byte>, d: seq<byte>, node: Node?, npos: nat, p: nat, q: nat, left: nat)
      reads this`nodes
    {
      && base >= 1 && p <= q <= |s| && d == s[p..q]
      && node == NodeAt(ChunkIndex(q, base)) && (left > 0 ==> npos == ChunkOffset(q, base))
    }

    /** One turn of the reading loop. */
    method ReadTurn(d: seq<byte>, node: Node, npos: nat, m: nat, ghost s: seq<byte>, ghost p: nat, ghost q: nat,
                    ghost left: nat)
        returns (d': seq<byte>, next: Node?)
      requires Linked() && s == Bytes() && Copying(s, d, node, npos, p, q, left)
      requires left >= 1 && npos < base && m == Least(base - npos, left)
      ensures Copying(s, d', next, 0, p, q + m, left - m)
    {
      NodeIff(q);
      IndexAdvance(q, base, m);
      var piece;
      piece, next := ReadPiece(node, q, npos, m);
      SliceOn(s, p, q, q + m);
      d' := d + piece;
    }

    /** Stops with bytes left to read when the list ends, which is exactly when they pass the capacity. */
    method ReadLoop(node: Node?, offset: nat, n: nat, ghost p: nat, ghost s: seq<byte>)
      returns (d: seq<byte>, end: Node?, left: nat)
      requires Linked() && s == Bytes() && offset < base && Copying(s, [], node, offset, p, p, n)
      ensures left == 0 <==> p + n <= capacity
      ensures left == 0 ==> Copying(s, d, end, 0, p, p + n, 0)
    {
      var npos: nat, ncap: nat := offset, base - offset;
      left := n;
      ghost var q: nat := p;
      d, end := [], node;
      while left > 0 && end != null
        invariant Copying(s, d, end, npos, p, q, left)
        invariant q + left == p + n && ncap == base - npos && npos < base
      {
        var m := if ncap >= left then left else ncap;
        d, end := ReadTurn(d, end, npos, m, s, p, q, left);
        q, left := q + m, left - m;
        npos, ncap := 0, base;
      }
      NodeIff(q);
    }

    /** Copies `n` bytes out from `p` on, which lies in `node`, and ends at the node of `p + n`. */
    method CopyOut(node: Node?, p: nat, n: nat) returns (d: seq<byte>, end: Node?)
      requires Linked() && p + n <= capacity && node == NodeAt(ChunkIndex(p, base))
      ensures end == NodeAt(ChunkIndex(p + n, base)) && p + n <= |Bytes()| && d == Bytes()[p..p + n]
    {
      var npos := OffsetOf(p);
      var left;
      d, end, left := ReadLoop(node, npos, n, p, Bytes());
    }

    /** Moves on by what `CopyOut` copied. */
    method ReadOn(n: nat) returns (d: seq<byte>)
      requires Valid() && position + n <= size
      modifies this`position, this`cur
      ensures Valid() && position == old(position) + n <= |Bytes()| && d == Bytes()[old(position)..position]
    {
      var end;
      d, end := CopyOut(cur, position, n);
      MoveTo(end, n);
    }

    method OffsetOf(p: nat) returns (npos: nat)
      requires base >= 1
      ensures npos == ChunkOffset(p, base)
    {
      IndexIsQuotient(p, base);
      npos := p % base;
    }

    /** Reads and moves on. The cursor is dereferenced first, even to read nothing. */
    method Read(n: nat) returns (r: Reading<seq<byte>>)
      requires Valid()
      modifies this`position, this`cur
      ensures Valid() && FlatOk(old(View()))
      ensures r == ReadBytes(old(View()), n) && position == r.position
    {
      CursorNullIff();
      if n > size - position {
        return Failed(OutOfRange, position);
      }
      if cur == null {
        return Failed(NullCursor, position);
      }
      var d := ReadOn(n);
      return Got(d, position);
    }

    /**
     * Reads at `p` without moving. The walk starts at the cursor whatever `p` is, so what it reads
     * is the offset of `p` in the cursor's node; running off the list dereferences null.
     */
    method ReadAt(n: nat, p: nat) returns (r: Reading<seq<byte>>)
      requires Valid() && p < TWO64
      ensures FlatOk(View()) && r == ReadAtCursor(View(), base, n, p)
    {
      CursorNullIff();
      if n > (if p <= size then size - p else TWO64 + size - p) {
        return Failed(OutOfRange, p);
      }
      if cur == null {
        return Failed(NullCursor, p);
      }
      var npos := OffsetOf(p);
      var here := OffsetOf(position);
      SameChunk(position, base, npos);
      var d, left := ReadHere(npos, n, position - here + npos);
      return if left > 0 then Failed(NullCursor, p) else Got(d, p);
    }

    /** Reads `n` bytes from offset `npos` of the cursor's node, which is position `q`, or runs off the list. */
    method ReadHere(npos: nat, n: nat, ghost q: nat) returns (d: seq<byte>, left: nat)
      requires Linked() && CursorOk() && cur != null
      requires ChunkIndex(q, base) == ChunkIndex(position, base) && ChunkOffset(q, base) == npos
      ensures left == 0 <==> q + n <= |Bytes()|
      ensures left == 0 ==> d == Bytes()[q..q + n]
    {
      NodeIff(q);
      var end;
      d, end, left := ReadLoop(cur, npos, n, q, Bytes());
    }

    /** All that can be read, without moving. */
    method ToString() returns (d: seq<byte>)
      requires Valid() && size < TWO64
      ensures size <= |Bytes()| && d == Bytes()[position..size]
    {
      CursorNullIff();
      if size - position == 0 {
        return [];
      }
      CapacityWhole();
      ReadAtIsRight(View(), base, size - position, position);
      var r := ReadAt(size - position, position);
      d := r.value;
    }

    // -------------------------------------------------------------- gather lists

    /** The entries are the pieces of the nodes' own memory. */
    ghost predicate Lists(iovs: seq<Iov>, ps: seq<Piece>)
      reads this`nodes
    {
      |iovs| == |ps| &&
      forall i {:trigger iovs[i]} :: 0 <= i < |ps| ==>
        ps[i].chunk < |nodes| && iovs[i] == Iov(nodes[ps[i].chunk].data, ps[i].offset, ps[i].length)
    }

    /** What the loop below keeps: the entries so far, and the node, offset and range still to do. */
    ghost predicate Listing(iovs: seq<Iov>, node: Node?, npos: nat, whole: seq<Piece>, done: seq<Piece>, q: nat,
                            left: nat)
      reads this`nodes
    {
      && base >= 1 && node == NodeAt(ChunkIndex(q, base)) && (left > 0 ==> npos == ChunkOffset(q, base))
      && whole == done + Pieces(base, q, left) && Lists(iovs, done)
    }

    /** One turn of the loop: the `m` bytes at `q` become one more entry. */
    method ListTurn(iovs: seq<Iov>, node: Node, npos: nat, m: nat,
                    ghost whole: seq<Piece>, ghost done: seq<Piece>, ghost q: nat, ghost left: nat)
        returns (iovs': seq<Iov>, next: Node?, ghost done': seq<Piece>)
      requires Linked() && left >= 1 && Listing(iovs, node, npos, whole, done, q, left)
      requires npos < base && m == Least(base - npos, left)
      ensures q + m <= capacity && Listing(iovs', next, 0, whole, done', q + m, left - m)
    {
      NodeIff(q);
      IndexAdvance(q, base, m);
      PiecesOn(base, whole, done, q, left, m);
      iovs' := iovs + [Iov(node.data, npos, m)];
      done' := done + [Piece(ChunkIndex(q, base), npos, m)];
      assert forall i :: 0 <= i < |done| ==> iovs'[i] == iovs[i] && done'[i] == done[i];
      next := NextNode(node, q, npos, m);
    }

    /** Stops with bytes left to list when the nodes end, which is exactly when they pass the capacity. */
    method ListLoop(node: Node?, offset: nat, len: nat, ghost whole: seq<Piece>, ghost p: nat)
      returns (iovs: seq<Iov>, left: nat)
      requires Linked() && p <= capacity && offset < base && Listing([], node, offset, whole, [], p, len)
      ensures left == 0 <==> p + len <= capacity
      ensures left == 0 ==> Lists(iovs, whole)
    {
      var npos: nat, ncap: nat := offset, base - offset;
      var cur := node;
      left := len;
      ghost var q: nat, done: seq<Piece> := p, [];
      iovs := [];
      while left > 0 && cur != null
        invariant q <= capacity && Listing(iovs, cur, npos, whole, done, q, left)
        invariant q + left == p + len && ncap == base - npos && npos < base
      {
        var m := if ncap >= left then left else ncap;
        iovs, cur, done := ListTurn(iovs, cur, npos, m, whole, done, q, left);
        q, left := q + m, left - m;
        npos, ncap := 0, base;
      }
      NodeIff(q);
      assert done + Pieces(base, q, 0) == done;
    }

    /** The three gather-list operations share this loop: `len` bytes from `p` on, which lies in `node`. */
    method ListFrom(node: Node?, p: nat, len: nat) returns (iovs: seq<Iov>, left: nat)
      requires Linked() && p <= capacity && node == NodeAt(ChunkIndex(p, base))
      ensures left == 0 <==> p + len <= capacity
      ensures left == 0 ==> Lists(iovs, Pieces(base, p, len))
    {
      var npos := OffsetOf(p);
      iovs, left := ListLoop(node, npos, len, Pieces(base, p, len), p);
    }

    /** At most `len` of the readable bytes, from the position on. */
    method GetReadBuffers(len: nat) returns (n: nat, iovs: seq<Iov>)
      requires Valid()
      ensures n == Least(len, size - position)
      ensures Lists(iovs, Pieces(base, position, n))
    {
      n := if len > size - position then size - position else len;
      if n == 0 {
        return 0, [];
      }
      var left;
      iovs, left := ListFrom(cur, position, n);
    }

    /**
     * As above from `p` on; the count is still cut to the bytes after the position, so the list can
     * hold bytes that are not readable. None when the walk over the nodes runs off the list and
     * dereferences null.
     */
    method GetReadBuffersAt(len: nat, p: nat) returns (n: nat, iovs: Option<seq<Iov>>)
      requires Valid()
      ensures n == Least(len, size - position)
      ensures iovs.None? <==> n > 0 && p + n > capacity
      ensures iovs.Some? ==> Lists(iovs.value, Pieces(base, p, n))
      ensures (exists x :: size <= x && Covers(Pieces(base, p, n), base, x)) <==> n > 0 && p + n > size
    {
      n := if len > size - position then size - position else len;
      PiecesBeyond(base, p, n, size);
      if n == 0 {
        return 0, Some([]);
      }
      var node := Walk(p);
      if node == null {
        return n, None;
      }
      var list, left := ListFrom(node, p, n);
      return n, if left > 0 then None else Some(list);
    }

    /** Counts nodes from the root to the one of `p`, or to the end of the list. */
    method Walk(p: nat) returns (node: Node?)
      requires Linked()
      ensures node == NodeAt(ChunkIndex(p, base))
      ensures node != null <==> p < capacity
    {
      NodeIff(p);
      IndexIsQuotient(p, base);
      var count := p / base;
      node := root;
      ghost var k := 0;
      while count > 0 && node != null
        invariant 0 <= count && k + count == ChunkIndex(p, base) && node == NodeAt(k)
        decreases count
      {
        node, count := node.next, count - 1;
        k := k + 1;
      }
    }

    /** Room for `len` bytes from the position on; position, size and readable bytes stay. */
    method GetWriteBuffers(len: nat) returns (n: nat, iovs: seq<Iov>)
      requires Valid()
      modifies this, Repr
      ensures Valid() && fresh(Repr - old(Repr))
      ensures n == len && Grown(old(View()), base, len, View())
      ensures Lists(iovs, Pieces(base, position, len))
    {
      if len == 0 {
        return 0, [];
      }
      AddCapacity(len);
      n := len;
      RoomIsThere(old(View()), base, len, View());
      var left;
      iovs, left := ListFrom(cur, position, len);
    }

    /** A gather list is exact: separate memory, each entry non-empty and inside its node, all together the range. */
    lemma ListIsExact(iovs: seq<Iov>, p: nat, n: nat)
      requires Linked() && p + n <= capacity && Lists(iovs, Pieces(base, p, n))
      ensures forall i :: 0 <= i < |iovs| ==>
                iovs[i].length >= 1 && iovs[i].offset + iovs[i].length <= iovs[i].data.Length
      ensures forall i, j :: 0 <= i < j < |iovs| ==> iovs[i].data != iovs[j].data
      ensures Describes(chunks, Pieces(base, p, n))
      ensures Gather(chunks, Pieces(base, p, n)) == Bytes()[p..p + n]
    {
      GatherIsSlice(chunks, base, p, n);
      forall i | 0 <= i < |iovs|
        ensures iovs[i].length >= 1 && iovs[i].offset + iovs[i].length <= iovs[i].data.Length
      {
        PiecesShape(base, p, n, i);
      }
      forall i, j | 0 <= i < j < |iovs| ensures iovs[i].data != iovs[j].data {
        PiecesShape(base, p, n, i);
        PiecesShape(base, p, n, j);
      }
    }
  }
}
