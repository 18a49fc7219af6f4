// ByteArray: a linked list of equal blocks with a cursor, read and written as one flat
// sequence of bytes.
module ByteArrays {
  import opened FlatBytes

  class Node {
    const ptr: array<Byte>
    const size: nat
    var next: Node?

    constructor (s: nat)
      ensures fresh(ptr) && ptr.Length == s && size == s && next == null
    {
      ptr := new Byte[s](_ => 0);
      size := s;
      next := null;
    }
  }

  function NodeAt(nodes: seq<Node>, i: nat): Node? {
    if i < |nodes| then nodes[i] else null
  }

  ghost predicate Links(nodes: seq<Node>, i: nat)
    requires i < |nodes|
    reads nodes[i]
  {
    nodes[i].next == NodeAt(nodes, i + 1)
  }

  ghost function Contents(nodes: seq<Node>): (r: seq<seq<Byte>>)
    reads set n | n in nodes :: n.ptr
    ensures |r| == |nodes|
    ensures forall i :: 0 <= i < |r| ==> r[i] == nodes[i].ptr[..]
  {
    if nodes == [] then []
    else
      var last := |nodes| - 1;
      assert nodes[last] in nodes && forall n :: n in nodes[..last] ==> n in nodes;
      Contents(nodes[..last]) + [nodes[last].ptr[..]]
  }

  // memcpy into a block.
  method CopyIn(dst: array<Byte>, at: nat, src: seq<Byte>)
    requires at + |src| <= dst.Length
    modifies dst
    ensures dst[..] == Overwrite(old(dst[..]), at, src)
  {
    var i := 0;
    while i < |src|
      invariant 0 <= i <= |src|
      invariant dst[..] == Overwrite(old(dst[..]), at, src[..i])
    {
      dst[at + i] := src[i];
      assert src[..i + 1] == src[..i] + [src[i]];
      i := i + 1;
    }
    assert src[..i] == src;
  }

  // An area of a block, as handed to readv and writev.
  datatype IoVec = IoVec(base: array<Byte>, offset: nat, len: nat) {
    predicate InBounds() { offset + len <= base.Length }
  }

  function Gathered(iov: seq<IoVec>): seq<Byte>
    requires forall i :: 0 <= i < |iov| ==> iov[i].InBounds()
    reads set i | 0 <= i < |iov| :: iov[i].base
  {
    if iov == [] then []
    else
      var n := |iov| - 1;
      assert iov[n].InBounds();
      Gathered(iov[..n]) + iov[n].base[iov[n].offset..iov[n].offset + iov[n].len]
  }

  datatype ReadResult =
    | Bytes(data: seq<Byte>)
    | OutOfRange               // std::out_of_range
    | NullCursor               // the code would dereference a null m_cur

  class ByteArray {
    const baseSize: nat
    var position: nat
    var capacity: nat
    var size: nat
    var root: Node
    var cur: Node?
    ghost var nodes: seq<Node>
    ghost var at: nat
    ghost var Repr: set<object>

    // The list is well formed: equal blocks, chained in order, none shared.
    ghost predicate Chained()
      reads this`Repr, this`nodes, this`root, Repr
      ensures Chained() ==> this !in Repr && 0 < baseSize && nodes != []
    {
      && this !in Repr && 0 < baseSize
      && nodes != [] && root == nodes[0]
      && (forall i :: 0 <= i < |nodes| ==>
            && nodes[i] in Repr && nodes[i].ptr in Repr
            && nodes[i].size == nodes[i].ptr.Length == baseSize)
      && (forall i :: 0 <= i < |nodes| ==> Links(nodes, i))
      && (forall i, j :: 0 <= i < j < |nodes| ==> nodes[i] != nodes[j] && nodes[i].ptr != nodes[j].ptr)
    }

    // The cursor is block at, the one that holds the position, or null exactly at capacity.
    ghost predicate CursorFits()
      reads this`nodes, this`at, this`cur, this`position
    {
      && at <= |nodes|
      && Span(at, baseSize) <= position < Span(at + 1, baseSize)
      && cur == NodeAt(nodes, at)
    }

    ghost predicate Valid()
      reads this, Repr
      ensures Valid() ==> Chained() && position <= size <= capacity
    {
      && Chained()
      && capacity == Span(|nodes|, baseSize)
      && position <= size <= capacity
      && CursorFits()
    }

    ghost function Blocks(): (r: seq<seq<Byte>>)
      requires Chained()
      reads this`Repr, this`nodes, this`root, Repr
      ensures |r| == |nodes| && Uniform(r, baseSize)
      ensures forall i :: 0 <= i < |r| ==> r[i] == nodes[i].ptr[..]
    {
      Contents(nodes)
    }

    // All bytes of all blocks, and the ones in use.
    ghost function Flat(): seq<Byte>
      requires Chained()
      reads this`Repr, this`nodes, this`root, Repr
    {
      Join(Blocks())
    }

    ghost function Data(): (d: seq<Byte>)
      requires Valid()
      reads this, Repr
      ensures |d| == size
    {
      JoinLength(Blocks(), baseSize);
      Flat()[..size]
    }

    constructor (base: nat)
      requires 0 < base
      ensures Valid() && fresh(Repr) && baseSize == base
      ensures Data() == [] && position == 0 && capacity == base
    {
      baseSize, position, capacity, size := base, 0, base, 0;
      var n := new Node(base);
      root := n;
      cur := n;
      nodes, at := [n], 0;
      Repr := {n, n.ptr};
      new;
    }

    // Adds one zeroed block behind the last one.
    method AppendNode(tail: Node)
      requires Chained() && tail == nodes[|nodes| - 1]
      modifies this`capacity, this`nodes, this`Repr, tail`next
      ensures Chained() && fresh(Repr - old(Repr)) && old(Repr) <= Repr
      ensures |nodes| == |old(nodes)| + 1 && nodes[..|old(nodes)|] == old(nodes)
      ensures tail.next == nodes[|nodes| - 1] && fresh(tail.next)
      ensures capacity == old(capacity) + baseSize
      ensures Blocks()[..|old(nodes)|] == old(Blocks())
    {
      hide Contents;
      var n := new Node(baseSize);
      tail.next := n;
      capacity := capacity + baseSize;
      nodes := nodes + [n];
      Repr := Repr + {n, n.ptr};
      forall i | 0 <= i < |nodes| ensures Links(nodes, i) {
        if i < |old(nodes)| {
          assert old(Links(nodes, i));
        }
      }
    }

    method LastNode() returns (tail: Node)
      requires Chained()
      ensures tail == nodes[|nodes| - 1] && tail in Repr
    {
      tail := root;
      ghost var k := 0;
      while tail.next != null
        invariant 0 <= k < |nodes| && tail == nodes[k]
        decreases |nodes| - k
      {
        assert Links(nodes, k);
        k := k + 1;
        tail := tail.next;
      }
      assert Links(nodes, k);
    }

    // The loop of addCapacity: count more blocks; first is the earliest of them.
    method AppendNodes(tail: Node, count: nat) returns (first: Node?)
      requires Chained() && tail == nodes[|nodes| - 1]
      modifies this`capacity, this`nodes, this`Repr, tail`next
      ensures Chained() && fresh(Repr - old(Repr)) && old(Repr) <= Repr
      ensures |nodes| == |old(nodes)| + count && nodes[..|old(nodes)|] == old(nodes)
      ensures first == if count == 0 then null else nodes[|old(nodes)|]
      ensures position == old(position) && size == old(size) && at == old(at) && cur == old(cur)
      ensures capacity == old(capacity) + Span(count, baseSize)
      ensures old(Flat()) <= Flat()
    {
      hide Chained, Blocks;
      ghost var m := |nodes|;
      var tmp := tail;
      first := null;
      var i := 0;
      while i < count
        invariant i <= count
        invariant Chained() && fresh(Repr - old(Repr)) && old(Repr) <= Repr
        invariant |nodes| == m + i && tmp == nodes[|nodes| - 1] && (i > 0 ==> fresh(tmp))
        invariant i == 0 ==> tmp == tail
        invariant nodes[..m] == old(nodes) && Blocks()[..m] == old(Blocks())
        invariant capacity == old(capacity) + Span(i, baseSize)
        invariant position == old(position) && size == old(size) && at == old(at) && cur == old(cur)
        invariant first == if i == 0 then null else nodes[m]
      {
        SpanAdd(i, 1, baseSize);
        ghost var before := Blocks();
        ghost var was := nodes;
        AppendNode(tmp);
        assert Blocks()[..m] == before[..m];
        assert nodes[..m] == was[..m];
        if first == null {
          first := tmp.next;
        }
        tmp := tmp.next;
        i := i + 1;
      }
      assert Blocks()[..m] <= Blocks();
      FlatGrows(old(Blocks()), Blocks(), baseSize);
    }

    method SetCursor(n: Node?)
      requires Chained()
      modifies this`cur
      ensures cur == n && Chained() && Flat() == old(Flat())
    {
      cur := n;
    }

    // The end of addCapacity: the new blocks, and the cursor if it was past the last one.
    method Grow(count: nat)
      requires Valid() && count > 0
      modifies this, Repr
      ensures Valid() && fresh(Repr - old(Repr)) && old(Repr) <= Repr
      ensures position == old(position) && size == old(size)
      ensures capacity == old(capacity) + Span(count, baseSize)
      ensures old(Flat()) <= Flat()
    {
      hide Chained, Flat, Span;
      RoomMeansCursor();
      var oldCap := capacity - position;
      var tmp := LastNode();
      ghost var m := |nodes|;
      var first := AppendNodes(tmp, count);
      if oldCap == 0 {
        SetCursor(first);
      }
      SpanAdd(m, count, baseSize);
    }

    // Makes room for n bytes after the position, in whole blocks and no more of them than needed.
    method AddCapacity(n: nat)
      requires Valid()
      modifies this, Repr
      ensures Valid() && fresh(Repr - old(Repr)) && old(Repr) <= Repr
      ensures position == old(position) && size == old(size) && Data() == old(Data())
      ensures position + n <= capacity
      ensures if n <= old(capacity) - position then capacity == old(capacity) else capacity < position + n + baseSize
      ensures old(Flat()) <= Flat()
    {
      hide Chained, Blocks, Flat, CursorFits, Span;
      if n == 0 {
        return;
      }
      var oldCap := capacity - position;
      if oldCap >= n {
        return;
      }
      var missing := n - oldCap;
      var count := (missing + baseSize - 1) / baseSize;
      Ceil(missing, baseSize);
      Offset();
      Grow(count);
    }

    // memcpy of x to offset npos of block at.
    method Put(n: Node, npos: nat, x: seq<Byte>)
      requires Chained() && at < |nodes| && n == nodes[at] && npos + |x| <= baseSize
      modifies n.ptr
      ensures Chained()
      ensures Span(at, baseSize) + npos + |x| <= |old(Flat())|
      ensures Flat() == Overwrite(old(Flat()), Span(at, baseSize) + npos, x)
    {
      CopyIn(n.ptr, npos, x);
      JoinOverwrite(old(Blocks()), at, baseSize, npos, x);
      assert Blocks() == old(Blocks())[at := Overwrite(old(Blocks())[at], npos, x)];
    }

    lemma NextBlock(k: nat)
      requires Chained() && k < |nodes|
      ensures nodes[k].next == NodeAt(nodes, k + 1) && nodes[k].size == baseSize
      ensures nodes[k].ptr in Repr
      ensures |Flat()| == Span(|nodes|, baseSize)
    {
      assert Links(nodes, k);
      JoinLength(Blocks(), baseSize);
    }

    // Where the cursor's block starts, and that there is a block to use while there is room.
    lemma Offset()
      requires Valid()
      ensures position % baseSize == position - Span(at, baseSize) < baseSize
      ensures position < capacity <==> cur != null
      ensures position < capacity <==> at < |nodes|
      ensures |Flat()| == capacity
    {
      DivMod(position, at, baseSize);
      CursorAtEnd(position, |nodes|);
      JoinLength(Blocks(), baseSize);
    }

    lemma WithinBlock()
      requires Chained() && CursorFits() && position < Span(|nodes|, baseSize)
      ensures at < |nodes| && cur == nodes[at] && cur.size == baseSize && cur.ptr in Repr
    {
      CursorAtEnd(position, |nodes|);
    }

    // One round of the loop of write: memcpy into the current block, and on to the next
    // block when this one is full (always so in the branch that copies ncap bytes).
    method Fill(n: Node, npos: nat, x: seq<Byte>)
      requires Chained() && CursorFits() && n == cur
      requires Span(at, baseSize) + npos == position && npos + |x| <= baseSize
      modifies this`cur, this`at, this`position, n.ptr
      ensures Chained() && CursorFits() && position == old(position) + |x| <= |old(Flat())|
      ensures npos + |x| == baseSize ==> Span(at, baseSize) == position
      ensures Flat() == Overwrite(old(Flat()), old(position), x)
    {
      hide Chained, Flat, Span, Blocks, Overwrite;
      NextBlock(at);
      SpanAdd(at, 1, baseSize);
      SpanAdd(at + 1, 1, baseSize);
      Put(n, npos, x);
      position := position + |x|;
      if n.size == npos + |x| {
        cur := n.next;
        at := at + 1;
      }
    }

    // The loop of write, once there is room.
    method WriteBlocks(src: seq<Byte>)
      requires Valid() && 0 < |src| && position + |src| <= capacity
      modifies this`position, this`cur, this`at, Repr
      ensures Chained() && CursorFits() && position == old(position) + |src|
      ensures position <= |old(Flat())| && Flat() == Overwrite(old(Flat()), old(position), src)
    {
      hide Chained, Flat, Span, Blocks, CursorFits, Overwrite;
      Offset();
      WithinBlock();
      OverwriteNothing(Flat(), position);
      ghost var flat := Flat();
      var n := |src|;
      var npos := position % baseSize;
      var ncap := cur.size - npos;
      var bpos := 0;
      assert src[..bpos] == [];
      while n > 0
        invariant 0 <= n && 0 <= bpos && n + bpos == |src| && position == old(position) + bpos
        invariant Chained() && CursorFits()
        invariant Flat() == Overwrite(flat, old(position), src[..bpos])
        invariant n > 0 ==> 0 <= npos < baseSize && ncap == baseSize - npos && Span(at, baseSize) + npos == position
      {
        WithinBlock();
        if ncap >= n {
          Extend(flat, old(position), src, bpos, n);
          Fill(cur, npos, src[bpos..bpos + n]);
          bpos := bpos + n;
          n := 0;
        } else {
          Extend(flat, old(position), src, bpos, ncap);
          Fill(cur, npos, src[bpos..bpos + ncap]);
          bpos := bpos + ncap;
          n := n - ncap;
          WithinBlock();
          ncap := cur.size;
          npos := 0;
        }
      }
      assert src[..bpos] == src;
    }

    // Overwrites the bytes from the position on, growing the array as needed.
    method Write(src: seq<Byte>)
      requires Valid()
      modifies this, Repr
      ensures Valid() && fresh(Repr - old(Repr)) && old(Repr) <= Repr
      ensures position == old(position) + |src|
      ensures size == if position > old(size) then position else old(size)
      ensures Data() == Overwrite(old(Data()), old(position), src)
    {
      hide Chained, Flat, Span, Blocks, CursorFits;
      if |src| == 0 {
        return;
      }
      AddCapacity(|src|);
      Offset();
      ghost var flat := Flat();
      WriteBlocks(src);
      if position > size {
        size := position;
      }
    }

    // A stretch of the current block is the matching stretch of the flat bytes.
    lemma BlockSlice(k: nat, npos: nat, n: nat)
      requires Chained() && k < |nodes| && npos + n <= baseSize
      ensures nodes[k].ptr.Length == baseSize && Span(k, baseSize) + npos + n <= |Flat()|
      ensures nodes[k].ptr[npos..npos + n] == Flat()[Span(k, baseSize) + npos..Span(k, baseSize) + npos + n]
    {
      JoinSlice(Blocks(), k, baseSize, npos, n);
    }

    // One round of the loop of read.
    method Drain(n: Node, npos: nat, len: nat) returns (x: seq<Byte>)
      requires Chained() && CursorFits() && n == cur
      requires Span(at, baseSize) + npos == position && npos + len <= baseSize
      modifies this`cur, this`at, this`position
      ensures CursorFits() && position == old(position) + len <= |Flat()|
      ensures npos + len == baseSize ==> Span(at, baseSize) == position
      ensures x == Flat()[old(position)..position]
    {
      hide Chained, Flat, Span, Blocks;
      NextBlock(at);
      BlockSlice(at, npos, len);
      SpanAdd(at, 1, baseSize);
      SpanAdd(at + 1, 1, baseSize);
      x := n.ptr[npos..npos + len];
      position := position + len;
      if n.size == npos + len {
        cur := n.next;
        at := at + 1;
      }
    }

    // The loop of read.
    method ReadBlocks(len: nat) returns (buf: seq<Byte>)
      requires Valid() && len <= size - position && position < capacity
      modifies this`cur, this`at, this`position
      ensures Chained() && CursorFits() && position == old(position) + len <= |Flat()|
      ensures buf == Flat()[old(position)..position]
    {
      hide Chained, Flat, Span, Blocks, CursorFits;
      Offset();
      WithinBlock();
      var n, npos := len, position % baseSize;
      var ncap := cur.size - npos;
      buf := [];
      while n > 0
        invariant 0 <= n && n + |buf| == len && position == old(position) + |buf|
        invariant CursorFits()
        invariant buf == Flat()[old(position)..position]
        invariant n > 0 ==> 0 <= npos < baseSize && ncap == baseSize - npos && Span(at, baseSize) + npos == position
      {
        WithinBlock();
        if ncap >= n {
          var x := Drain(cur, npos, n);
          buf := buf + x;
          n := 0;
        } else {
          var x := Drain(cur, npos, ncap);
          buf := buf + x;
          n := n - ncap;
          WithinBlock();
          ncap := cur.size;
          npos := 0;
        }
      }
    }

    // The bytes from the position on; the position moves past them.
    method Read(len: nat) returns (r: ReadResult)
      requires Valid()
      modifies this`cur, this`at, this`position
      ensures Valid() && Data() == old(Data())
      ensures len > size - old(position) <==> r == OutOfRange
      ensures len == 0 && old(position) == capacity <==> r == NullCursor
      ensures !r.Bytes? ==> position == old(position)
      ensures r.Bytes? ==> position == old(position) + len && r.data == Data()[old(position)..position]
    {
      hide Chained, Flat, Span, Blocks, CursorFits;
      Offset();
      if len > size - position {
        return OutOfRange;
      }
      if cur == null {
        return NullCursor;
      }
      var buf := ReadBlocks(len);
      assert Flat()[..size][old(position)..position] == Flat()[old(position)..position];
      r := Bytes(buf);
    }

    // The walk of setPosition to the block that ends at v or after it.
    method Walk(v: nat) returns (walk: Node, left: nat, ghost k: nat)
      requires Chained() && v <= Span(|nodes|, baseSize)
      ensures k < |nodes| && walk == nodes[k] && left <= walk.size == baseSize
      ensures Span(k, baseSize) + left == v
    {
      hide Chained, Span;
      left, walk, k := v, root, 0;
      FirstBlock();
      while left > walk.size
        invariant k < |nodes| && walk == nodes[k] && walk.size == baseSize
        invariant Span(k, baseSize) + left == v
        decreases left
      {
        NextBlock(k);
        SpanAdd(k, 1, baseSize);
        BlockBefore(k + 1, v);
        left := left - walk.size;
        walk := walk.next;
        k := k + 1;
      }
    }

    // Moves the position anywhere up to capacity; the bytes in use grow to reach it.
    method SetPosition(v: nat) returns (ok: bool)
      requires Valid()
      modifies this`cur, this`at, this`position, this`size
      ensures Valid() && Flat() == old(Flat())
      ensures ok <==> v <= capacity
      ensures if ok then position == v else position == old(position)
      ensures size == if ok && v > old(size) then v else old(size)
    {
      hide Chained, Flat, Span;
      if v > capacity {
        return false;
      }
      position := v;
      if position > size {
        size := position;
      }
      var walk, left, k := Walk(v);
      NextBlock(k);
      SpanAdd(k, 1, baseSize);
      SpanAdd(k + 1, 1, baseSize);
      if left == walk.size {
        cur, at := walk.next, k + 1;
      } else {
        cur, at := walk, k;
      }
      ok := true;
    }

    lemma FirstBlock()
      requires Chained()
      ensures root == nodes[0] && root.size == baseSize && Span(0, baseSize) == 0
      ensures root in Repr && root.ptr in Repr
    {
    }

    lemma BlockBefore(k: nat, v: nat)
      requires Chained() && Span(k, baseSize) < v <= Span(|nodes|, baseSize)
      ensures k < |nodes| && nodes[k].size == baseSize
    {
      if |nodes| <= k {
        MulMonotone(|nodes|, k, baseSize);
      }
    }

    // Empties the array; only the first block stays.
    method Clear()
      requires Valid()
      modifies this, root
      ensures Valid() && Data() == [] && position == 0
      ensures capacity == baseSize && Repr <= old(Repr)
    {
      FirstBlock();
      position, size, capacity := 0, 0, baseSize;
      cur := root;
      root.next := null;
      nodes, at := [root], 0;
      Repr := {root, root.ptr};
    }

    // The areas are, in order, the blocks' own memory from the position on: the first from
    // the position's offset, every other from its block's start, every one but the last to
    // its block's end.
    ghost predicate Covers(iov: seq<IoVec>, npos: nat)
      reads this`nodes, this`at
    {
      && at + |iov| <= |nodes|
      && forall j :: 0 <= j < |iov| ==> Area(iov, j, npos)
    }

    ghost predicate Area(iov: seq<IoVec>, j: nat, npos: nat)
      requires j < |iov| && at + j < |nodes|
      reads this`nodes, this`at
    {
      && iov[j].base == nodes[at + j].ptr
      && iov[j].offset == (if j == 0 then npos else 0)
      && 0 < iov[j].len && iov[j].offset + iov[j].len <= baseSize
      && (j + 1 < |iov| ==> iov[j].offset + iov[j].len == baseSize)
    }

    // push_back of one more area.
    ghost predicate MayFollow(iov: seq<IoVec>, npos: nat)
    {
      iov == [] || (npos == 0 && iov[|iov| - 1].offset + iov[|iov| - 1].len == baseSize)
    }

    lemma CoversOneMore(iov: seq<IoVec>, first: nat, a: IoVec)
      requires Chained() && Covers(iov, first) && at + |iov| < |nodes| && MayFollow(iov, a.offset)
      requires a.base == nodes[at + |iov|].ptr && 0 < a.len && a.offset + a.len <= baseSize
      requires iov == [] ==> a.offset == first
      ensures Covers(iov + [a], first)
    {
      forall j | 0 <= j < |iov| + 1 ensures Area(iov + [a], j, first) {
        if j < |iov| {
          assert Area(iov, j, first);
        }
      }
    }

    // The areas collected so far: they cover and hold the first done bytes behind the position.
    ghost predicate Laid(iov: seq<IoVec>, first: nat, done: nat)
      requires Chained()
      reads this, Repr
    {
      && Covers(iov, first)
      && (forall j :: 0 <= j < |iov| ==> iov[j].InBounds())
      && position + done <= |Flat()|
      && (forall j :: 0 <= j < |iov| ==> iov[j].base in Repr)
      && Gathered(iov) == Flat()[position..position + done]
    }

    lemma LayOneMore(iov: seq<IoVec>, first: nat, a: IoVec, done: nat)
      requires Chained() && Laid(iov, first, done) && at + |iov| < |nodes| && MayFollow(iov, a.offset)
      requires a.base == nodes[at + |iov|].ptr && 0 < a.len && a.offset + a.len <= baseSize
      requires iov == [] ==> a.offset == first
      requires Span(at + |iov|, baseSize) + a.offset == position + done
      ensures Laid(iov + [a], first, done + a.len)
    {
      hide Span, Flat, Area, MayFollow;
      CoversOneMore(iov, first, a);
      BlockSlice(at + |iov|, a.offset, a.len);
      assert (iov + [a])[..|iov|] == iov;
    }

    // The loop of getReadBuffers and getWriteBuffers.
    method Areas(total: nat) returns (iov: seq<IoVec>)
      requires Valid() && 0 < total <= capacity - position
      ensures Laid(iov, position % baseSize, total)
    {
      hide Chained, Flat, Span, Laid, CursorFits, MayFollow;
      Offset();
      WithinBlock();
      var len, npos := total, position % baseSize;
      var ncap := cur.size - npos;
      var walk := cur;
      ghost var first, done := npos, 0;
      iov := [];
      StartAreas(first);
      while len > 0
        invariant 0 <= len && len + done == total
        invariant Laid(iov, first, done)
        invariant len > 0 ==>
          && at + |iov| < |nodes| && walk == nodes[at + |iov|] && 0 <= npos < baseSize && ncap == baseSize - npos
          && Span(at + |iov|, baseSize) + npos == position + done
          && (iov == [] ==> npos == first) && MayFollow(iov, npos)
      {
        NextBlock(at + |iov|);
        SpanAdd(at + |iov|, 1, baseSize);
        var a;
        if ncap >= len {
          a := IoVec(walk.ptr, npos, len);
          LayOneMore(iov, first, a, done);
          len := 0;
        } else {
          a := IoVec(walk.ptr, npos, ncap);
          LayOneMore(iov, first, a, done);
          len := len - ncap;
          walk := walk.next;
          BlockBefore(at + |iov| + 1, position + total);
          FullArea(iov, a);
          ncap := walk.size;
          npos := 0;
        }
        done := done + a.len;
        iov := iov + [a];
      }
    }

    lemma StartAreas(first: nat)
      requires Chained() && at <= |nodes| && position <= |Flat()|
      ensures Laid([], first, 0) && MayFollow([], first)
    {
    }

    lemma FullArea(iov: seq<IoVec>, a: IoVec)
      requires a.offset + a.len == baseSize
      ensures MayFollow(iov + [a], 0)
    {
    }

    // Areas holding the next bytes to read, at most len of them.
    method GetReadBuffers(len: nat) returns (n: nat, iov: seq<IoVec>)
      requires Valid()
      ensures n == if len > size - position then size - position else len
      ensures Laid(iov, position % baseSize, n)
      ensures (forall j :: 0 <= j < |iov| ==> iov[j].InBounds()) && Gathered(iov) == Data()[position..position + n]
    {
      hide Chained, Flat, Data, Laid;
      n := if len > size - position then size - position else len;
      Offset();
      if n == 0 {
        StartAreas(position % baseSize);
        iov := [];
      } else {
        iov := Areas(n);
      }
      LaidData(iov, position % baseSize, n);
    }

    lemma LaidData(iov: seq<IoVec>, first: nat, n: nat)
      requires Valid() && Laid(iov, first, n) && position + n <= size
      ensures forall j :: 0 <= j < |iov| ==> iov[j].InBounds()
      ensures Gathered(iov) == Data()[position..position + n]
    {
      hide Covers, Gathered, CursorFits, Flat;
      Offset();
      assert Flat()[..size][position..position + n] == Flat()[position..position + n];
    }

    // Areas to be filled by a read of len bytes; the array grows to hold them.
    method GetWriteBuffers(len: nat) returns (iov: seq<IoVec>)
      requires Valid()
      modifies this, Repr
      ensures Valid() && fresh(Repr - old(Repr)) && old(Repr) <= Repr
      ensures position == old(position) && Data() == old(Data())
      ensures Laid(iov, position % baseSize, len)
    {
      hide Chained, Flat, Span, Blocks;
      Offset();
      if len == 0 {
        StartAreas(position % baseSize);
        iov := [];
      } else {
        AddCapacity(len);
        iov := Areas(len);
      }
    }

    // The cursor is null exactly when the position is at capacity.
    lemma CursorAtEnd(p: nat, m: nat)
      requires 0 < baseSize && at <= m && Span(at, baseSize) <= p < Span(at + 1, baseSize) && p <= Span(m, baseSize)
      ensures at == m <==> p == Span(m, baseSize)
    {
      if at < m {
        MulMonotone(at + 1, m, baseSize);
      }
    }

    lemma RoomMeansCursor()
      requires Valid()
      ensures position < capacity <==> cur != null
      ensures position < capacity <==> at < |nodes|
    {
      CursorAtEnd(position, |nodes|);
    }
  }

  lemma OverwriteNothing(d: seq<Byte>, p: nat)
    requires p <= |d|
    ensures Overwrite(d, p, []) == d
  {
  }

  lemma Extend(d: seq<Byte>, p: nat, src: seq<Byte>, done: nat, n: nat)
    requires done + n <= |src| && p + |src| <= |d|
    ensures Overwrite(Overwrite(d, p, src[..done]), p + done, src[done..done + n]) == Overwrite(d, p, src[..done + n])
  {
    OverwriteTwice(d, p, src[..done], src[done..done + n]);
    assert src[..done] + src[done..done + n] == src[..done + n];
  }

  lemma FlatGrows(before: seq<seq<Byte>>, after: seq<seq<Byte>>, b: nat)
    requires Uniform(after, b) && before <= after
    ensures Join(before) <= Join(after)
    ensures |Join(before)| == Span(|before|, b) && |Join(after)| == Span(|after|, b)
  {
    assert Uniform(before, b);
    JoinLength(before, b);
    JoinLength(after, b);
    assert after == before + after[|before|..];
    JoinConcat(before, after[|before|..]);
  }

  lemma Ceil(n: nat, b: nat)
    requires 0 < n && 0 < b
    ensures var count := (n + b - 1) / b; 0 < count && n <= Span(count, b) < n + b
  {
    var q, r := (n + b - 1) / b, (n + b - 1) % b;
    assert n + b - 1 == q * b + r;
    assert q == 0 ==> q * b == 0;
  }
}
