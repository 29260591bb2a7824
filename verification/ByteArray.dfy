/** The chunked byte buffer: a singly linked list of equal blocks with a cursor into it. */
module ByteArrays {
  import opened Bytes
  import opened FlatBuffer
  import opened Blocks
  import opened Numbers

  class Node {
    const data: array<Byte>
    const size: nat
    var next: Node?
    ghost const index: nat

    constructor (s: nat, ghost i: nat)
      ensures fresh(data) && data.Length == s && size == s && next == null && index == i
    {
      data := new Byte[s];
      size := s;
      index := i;
      next := null;
    }
  }

  /** One scatter/gather entry: `len` bytes of `block` from `off`. */
  datatype IoVec = IoVec(block: array<Byte>, off: nat, len: nat)

  class ByteArray {
    const base: nat
    var position: nat
    var capacity: nat
    var size: nat
    var little: bool
    const root: Node
    var cur: Node?

    ghost var nodes: seq<Node>
    ghost var blocks: seq<seq<Byte>>
    ghost var at: nat
    ghost var owner: map<array<Byte>, nat>
    ghost var Repr: set<object>

    ghost function NodeAt(k: nat): Node?
      reads this
    {
      if k < |nodes| then nodes[k] else null
    }

    /** The linked list is `nodes`, all blocks have `base` bytes, and `blocks` is what they hold.
        `index` and `owner` number the nodes and their blocks, so no two are the same object. */
    ghost predicate Shape()
      reads this, Repr
    {
      && this in Repr
      && base > 0
      && |nodes| == |blocks| > 0
      && root == nodes[0]
      && (forall i :: 0 <= i < |nodes| ==>
            && nodes[i] in Repr && nodes[i].data in Repr
            && nodes[i].size == base == nodes[i].data.Length
            && nodes[i].index == i
            && nodes[i].data in owner && owner[nodes[i].data] == i)
      && (forall i {:trigger blocks[i]} :: 0 <= i < |nodes| ==> nodes[i].data[..] == blocks[i])
      && (forall i {:trigger nodes[i].next} :: 0 <= i < |nodes| ==> nodes[i].next == NodeAt(i + 1))
      && (forall d :: d in owner ==> d in Repr)
    }

    /** Block `k` is the current one and holds the cursor. */
    ghost predicate CursorAt(k: nat)
      reads this
    {
      && k <= |nodes|
      && cur == NodeAt(k)
      && BlockStart(k, base) <= position < BlockStart(k, base) + base
    }

    ghost predicate Valid()
      reads this, Repr
    {
      && Shape()
      && capacity == BlockStart(|nodes|, base)
      && position <= size <= capacity
      && CursorAt(at)
    }

    ghost function View(): (f: Flat)
      requires Valid()
      reads this, Repr
      ensures f.Valid(base) && |f.mem| == capacity
    {
      ConcatLength(blocks, base);
      Flat(Concat(blocks), position, size)
    }

    /** The object and its blocks are its own. */
    lemma Owns()
      requires Shape()
      ensures this in Repr && forall n :: n in nodes ==> n.data in Repr
    {}

    /** The current node is null exactly at capacity. */
    lemma NullAtCapacity()
      requires Valid()
      ensures cur == null <==> position == capacity
    {
      if at < |nodes| {
        BlockStartMonotone(at, |nodes|, base);
      }
    }

    /** The current node is number position / base, and position % base is the offset in it. */
    lemma CursorIsQuotient()
      requires Valid()
      ensures position / base == at && cur == NodeAt(position / base)
      ensures position % base == position - BlockStart(at, base)
    {
      BlockDivMod(at, base, position - BlockStart(at, base));
    }

    constructor (base_size: nat)
      requires base_size > 0
      ensures Valid() && fresh(Repr) && base == base_size
      ensures !little && View().pos == View().size == 0 && |View().mem| == base
    {
      base := base_size;
      position := 0;
      capacity := base_size;
      size := 0;
      little := false;
      var r := new Node(base_size, 0);
      root := r;
      cur := r;
      nodes := [r];
      blocks := [r.data[..]];
      at := 0;
      owner := map[r.data := 0];
      Repr := {this, r, r.data};
      new;
      assert BlockStart(1, base) == base;
      ConcatLength(blocks, base);
    }

    /** Walk to the last block. */
    method SetIsLittleEndian(val: bool)
      requires Valid()
      modifies this`little
      ensures Valid() && View() == old(View()) && little == val
    {
      little := val;
    }

    method LastNode() returns (tmp: Node)
      requires Shape()
      ensures tmp == nodes[|nodes| - 1]
    {
      tmp := root;
      ghost var k := 0;
      while tmp.next != null
        invariant k < |nodes| && tmp == nodes[k]
        decreases |nodes| - k
      {
        tmp := tmp.next;
        k := k + 1;
      }
    }

    /** Link a new block behind the last one. */
    method LinkBlock(last: Node) returns (n: Node)
      requires Shape() && last == nodes[|nodes| - 1]
      modifies this`nodes, this`blocks, this`Repr, this`owner, last`next
      ensures Shape() && fresh(Repr - old(Repr)) && old(Repr) <= Repr
      ensures nodes == old(nodes) + [n] && fresh(n)
      ensures |blocks| == |nodes| && blocks[..|nodes| - 1] == old(blocks)
    {
      n := new Node(base, |nodes|);
      assert n.data !in Repr;
      last.next := n;
      assert forall i :: 0 <= i < |nodes| - 1 ==> nodes[i] != last;
      nodes := nodes + [n];
      blocks := blocks + [n.data[..]];
      owner := owner[n.data := |nodes| - 1];
      Repr := Repr + {n, n.data};
    }

    /** Link `count` new blocks; `first` is the first of them. */
    method LinkBlocks(count: nat) returns (first: Node?)
      requires Shape() && capacity == BlockStart(|nodes|, base)
      modifies this`nodes, this`blocks, this`Repr, this`owner, this`capacity, (set n | n in nodes)`next
      ensures Shape() && fresh(Repr - old(Repr)) && old(Repr) <= Repr
      ensures capacity == BlockStart(|nodes|, base)
      ensures |nodes| == |old(nodes)| + count && old(nodes) <= nodes && old(blocks) <= blocks
      ensures count > 0 ==> first == nodes[|old(nodes)|]
    {
      hide BlockStart, Concat;
      var tmp := LastNode();
      first := null;
      for i := 0 to count
        invariant Shape() && fresh(Repr - old(Repr)) && old(Repr) <= Repr
        invariant |nodes| == |old(nodes)| + i && old(nodes) <= nodes && old(blocks) <= blocks
        invariant tmp == nodes[|nodes| - 1] && (tmp in old(nodes) || fresh(tmp))
        invariant if i == 0 then first == null else first == nodes[|old(nodes)|]
        invariant capacity == BlockStart(|nodes|, base)
      {
        NextStart(|nodes|, base);
        var t := LinkBlock(tmp);
        if first == null { first := t; }
        tmp := t;
        capacity := capacity + base;
      }
    }

    /** Make room for `n` bytes at the cursor. */
    method AddCapacity(n: nat)
      requires Valid()
      modifies Repr
      ensures Valid() && fresh(Repr - old(Repr)) && old(Repr) <= Repr
      ensures Grew(old(View()), n, View(), base) && little == old(little)
      ensures capacity == GrownCapacity(old(capacity), old(position), n, base)
    {
      hide Concat;
      NullAtCapacity();
      if n == 0 { return; }
      var oldCap := capacity - position;
      if oldCap >= n { return; }
      var count := Ceil(n - oldCap, base);
      BlockStartSum(|nodes|, count, base);
      var first := LinkBlocks(count);
      if oldCap == 0 { cur := first; }
      GrewByBlocks(old(blocks), blocks, position, size, n, base);
    }

    /** Move the cursor `n` bytes on within the current block, to the next block when that fills it. */
    method Advance(npos: nat, n: nat)
      requires Shape() && CursorAt(at) && at < |nodes| && npos + n <= base
      requires position == BlockStart(at, base) + npos
      modifies this`position, this`cur, this`at
      ensures Shape() && CursorAt(at) && position == old(position) + n
      ensures npos + n == base ==> position == BlockStart(at, base)
    {
      if cur.size == npos + n {
        cur := cur.next;
        at := at + 1;
      }
      position := position + n;
    }

    /** memcpy of `src` into block `k` at `npos`. */
    method CopyIn(d: array<Byte>, ghost k: nat, npos: nat, src: seq<Byte>)
      requires Shape() && k < |nodes| && d == nodes[k].data && npos + |src| <= base
      modifies this`blocks, d
      ensures Shape()
      ensures BlockStart(k, base) + npos + |src| <= |Concat(old(blocks))|
      ensures Concat(blocks) == Patch(Concat(old(blocks)), BlockStart(k, base) + npos, src)
    {
      forall j | 0 <= j < |src| { d[npos + j] := src[j]; }
      ghost var b := Patch(old(blocks)[k], npos, src);
      assert d[..] == b;
      blocks := blocks[k := b];
      PatchBlock(old(blocks), base, k, npos, src);
    }

    /** A cursor below the capacity is in a block. */
    lemma CursorInBlock()
      requires Shape() && CursorAt(at) && position < BlockStart(|nodes|, base)
      ensures at < |nodes| && cur == nodes[at] && cur.size == cur.data.Length == base && cur.next == NodeAt(at + 1)
      ensures Uniform(blocks, base) && |blocks| == |nodes| && cur.data[..] == blocks[at]
    {}

    /** Copy `buf` in at the cursor, growing first when it does not fit. */
    method Write(buf: seq<Byte>)
      requires Valid()
      modifies Repr
      ensures Valid() && fresh(Repr - old(Repr)) && old(Repr) <= Repr
      ensures Wrote(old(View()), buf, View(), base) && little == old(little)
      ensures capacity == GrownCapacity(old(capacity), old(position), |buf|, base)
    {
      hide Concat, BlockStart;
      NullAtCapacity();
      var len := |buf|;
      if len == 0 {
        WroteNothing(View(), base);
        return;
      }
      AddCapacity(len);
      ghost var h := View();
      NullAtCapacity();
      CursorIsQuotient();
      var npos := position % base;
      WriteLoop(buf, npos);
      if position > size { size := position; }
      assert Grew(old(View()), |buf|, h, base);
    }

    /** The copying loop of `Write`, once there is room. */
    method WriteLoop(buf: seq<Byte>, npos0: nat)
      requires Valid() && position + |buf| <= capacity
      requires npos0 == position - BlockStart(at, base)
      modifies this`position, this`cur, this`at, this`blocks, set n | n in nodes :: n.data
      ensures Shape() && CursorAt(at)
      ensures position == old(position) + |buf|
      ensures |Concat(old(blocks))| == capacity
      ensures Concat(blocks) == Patch(Concat(old(blocks)), old(position), buf)
    {
      hide Patch, Concat, BlockStart, Shape;
      NullAtCapacity();
      var npos: nat := npos0;
      var bpos: nat := 0;
      ghost var mem := View().mem;
      PatchNothing(mem, position, buf);
      while bpos < |buf|
        invariant Shape() && CursorAt(at)
        invariant bpos <= |buf| && position == old(position) + bpos
        invariant |mem| == capacity == BlockStart(|nodes|, base)
        invariant Concat(blocks) == Patch(mem, old(position), buf[..bpos])
        invariant bpos < |buf| ==> position == BlockStart(at, base) + npos
      {
        CursorInBlock();
        var n := Min(cur.size - npos, |buf| - bpos);
        CopyIn(cur.data, at, npos, buf[bpos..bpos + n]);
        PatchStep(mem, old(position), buf, bpos, bpos + n);
        Advance(npos, n);
        bpos := bpos + n;
        npos := 0;
      }
      assert buf[..bpos] == buf;
    }

    /** Copy `n` bytes out from the cursor on, or fail and leave everything as it was. */
    method Read(n: nat) returns (r: ReadResult)
      requires Valid()
      modifies this`position, this`cur, this`at
      ensures Valid()
      ensures r == ReadOutcome(old(View()), n) && View() == AfterRead(old(View()), n)
    {
      hide BlockStart, Concat, Shape;
      NullAtCapacity();
      if n > size - position { return OutOfRange; }
      if cur == null { return NullNode; }
      CursorIsQuotient();
      var npos: nat := position % base;
      var bytes: seq<Byte> := [];
      ghost var mem := View().mem;
      while |bytes| < n
        invariant Shape() && CursorAt(at) && |bytes| <= n && position == old(position) + |bytes|
        invariant capacity == |mem| == BlockStart(|nodes|, base)
        invariant bytes == mem[old(position)..position]
        invariant |bytes| < n ==> position == BlockStart(at, base) + npos
      {
        CursorInBlock();
        var m := Min(cur.size - npos, n - |bytes|);
        ConcatSlice(blocks, base, at, npos, npos + m);
        bytes := bytes + cur.data[npos..npos + m];
        assert cur.data[npos..npos + m] == blocks[at][npos..npos + m];
        Advance(npos, m);
        npos := 0;
      }
      r := Ok(bytes);
    }

    /** Capacity beyond block `k` means there is a next block. */
    lemma BlockBound(k: nat, end: nat)
      requires k < |nodes| && BlockStart(k, base) + base < end <= BlockStart(|nodes|, base)
      ensures k + 1 < |nodes|
    {
      assert BlockStart(k + 1, base) == BlockStart(k, base) + base;
    }

    /** Walk from the first block to the one that holds `position`. */
    method Seek()
      requires Shape() && position <= BlockStart(|nodes|, base)
      modifies this`cur, this`at
      ensures CursorAt(at)
    {
      cur := root;
      at := 0;
      var left: nat := position;
      while left > cur.size
        invariant at < |nodes| && cur == nodes[at] && position == BlockStart(at, base) + left
        decreases left
      {
        BlockBound(at, position);
        left := left - cur.size;
        cur := cur.next;
        at := at + 1;
      }
      if left == cur.size {
        cur := cur.next;
        at := at + 1;
      }
    }

    /** Move the cursor anywhere up to the capacity; `false` is the out_of_range exception. */
    method SetPosition(v: nat) returns (ok: bool)
      requires Valid()
      modifies this`position, this`size, this`cur, this`at
      ensures Valid()
      ensures ok == (v <= capacity)
      ensures View() == if ok then Flat(old(View()).mem, v, Max(old(size), v)) else old(View())
    {
      hide Concat;
      if v > capacity { return false; }
      position := v;
      if position > size { size := position; }
      Seek();
      ok := true;
    }

    /** Drop all blocks but the first and start over. */
    method Clear()
      requires Valid()
      modifies this, root`next
      ensures Valid() && Repr == old(Repr) && little == old(little)
      ensures capacity == base && View() == Flat(old(View()).mem[..base], 0, 0)
    {
      FirstStarts(base);
      hide Concat, BlockStart;
      FirstBlock(blocks, base);
      position, size := 0, 0;
      capacity := base;
      cur := root;
      root.next := null;
      nodes := [root];
      blocks := [blocks[0]];
      at := 0;
    }

    // ---------- scatter/gather ----------

    /** `v` is the part of block `j` between positions `start` and `end`, and not empty. */
    ghost predicate IsSlice(v: IoVec, j: nat, start: nat, end: nat)
      reads this
    {
      var o := BlockStart(j, base);
      && j < |nodes| && start < o + base && o < end && start < end
      && v.block == nodes[j].data
      && v.off == (if start <= o then 0 else start - o)
      && v.off + v.len == (if end <= o + base then end - o else base)
    }

    /** `iovs` are the parts of consecutive blocks, from number `k` on, that make up [start, end). */
    ghost predicate IsSlices(iovs: seq<IoVec>, k: nat, start: nat, end: nat)
      reads this
    {
      && k + |iovs| <= |nodes| && start <= end
      && BlockStart(k, base) <= start < BlockStart(k, base) + base
      && (forall i {:trigger iovs[i]} :: 0 <= i < |iovs| ==> IsSlice(iovs[i], k + i, start, end))
    }

    lemma AppendSlice(iovs: seq<IoVec>, k: nat, start: nat, end: nat, v: IoVec)
      requires IsSlices(iovs, k, start, end) && k + |iovs| < |nodes|
      requires IsSlice(v, k + |iovs|, start, end)
      ensures IsSlices(iovs + [v], k, start, end)
    {
      var w := iovs + [v];
      forall i | 0 <= i < |w| ensures IsSlice(w[i], k + i, start, end) {
        if i < |iovs| { assert w[i] == iovs[i]; } else { assert i == |iovs| && w[i] == v; }
      }
    }

    /** The loop of getReadBuffers and getWriteBuffers. */
    method CollectBuffers(len: nat) returns (iovs: seq<IoVec>)
      requires Valid() && 0 < len && position + len <= capacity
      ensures IsSlices(iovs, at, position, position + len)
      ensures |iovs| > 0 && BlockStart(at + |iovs| - 1, base) < position + len <= BlockStart(at + |iovs|, base)
    {
      NullAtCapacity();
      CursorIsQuotient();
      hide Concat;
      var left: nat := len;
      var npos: nat := position % base;
      var c := cur;
      iovs := [];
      ghost var k := at;
      ghost var end := position + len;
      while left > 0
        invariant k == at + |iovs| && IsSlices(iovs, at, position, end) && left <= len
        invariant left > 0 ==> k < |nodes| && c == nodes[k] && npos < base
        invariant left > 0 ==> BlockStart(k, base) + npos == end - left
        invariant npos == if |iovs| == 0 then position - BlockStart(at, base) else 0
        invariant left == 0 ==> |iovs| > 0 && BlockStart(k - 1, base) < end <= BlockStart(k, base)
        decreases left
      {
        assert BlockStart(k + 1, base) == BlockStart(k, base) + base;
        var ncap := c.size - npos;
        AppendSlice(iovs, at, position, end, IoVec(c.data, npos, Min(ncap, left)));
        iovs := iovs + [IoVec(c.data, npos, Min(ncap, left))];
        if ncap >= left {
          left := 0;
        } else {
          BlockBound(k, end);
          left := left - ncap;
          c := c.next;
        }
        npos := 0;
        k := k + 1;
      }
    }

    lemma NoSlices()
      requires Valid()
      ensures IsSlices([], at, position, position) && Gather([]) == []
    {}

    /** The unread bytes, at most `len` of them, as slices of the blocks. */
    method GetReadBuffers(len: nat) returns (iovs: seq<IoVec>, total: nat)
      requires Valid()
      ensures total == Min(len, size - position)
      ensures total == 0 ==> iovs == []
      ensures IsSlices(iovs, at, position, position + total)
      ensures Gather(iovs) == View().mem[position..position + total]
      ensures forall i, j :: 0 <= i < j < |iovs| ==> iovs[i].block != iovs[j].block
    {
      hide Concat, BlockStart, Gather, Shape, IsSlices;
      total := Min(len, size - position);
      iovs := [];
      NoSlices();
      if total == 0 { return; }
      iovs := CollectBuffers(total);
      SlicesGather(iovs, at, position, position + total);
      SlicesDisjoint(iovs, at, position, position + total);
    }

    /** Room for `len` bytes at the cursor, as slices of the blocks. */
    method GetWriteBuffers(len: nat) returns (iovs: seq<IoVec>, total: nat)
      requires Valid()
      modifies Repr
      ensures Valid() && fresh(Repr - old(Repr)) && old(Repr) <= Repr
      ensures Grew(old(View()), len, View(), base) && little == old(little)
      ensures total == len && (len == 0 ==> iovs == [])
      ensures IsSlices(iovs, at, position, position + len)
      ensures len > 0 ==>
        |iovs| > 0 && BlockStart(at + |iovs| - 1, base) < position + len <= BlockStart(at + |iovs|, base)
      ensures forall i, j :: 0 <= i < j < |iovs| ==> iovs[i].block != iovs[j].block
    {
      total := len;
      iovs := [];
      AddCapacity(len);
      if len == 0 { return; }
      iovs := CollectBuffers(len);
      SlicesDisjoint(iovs, at, position, position + len);
    }

    /** Slices are taken from distinct blocks, so they cannot overlap. */
    lemma SlicesDisjoint(iovs: seq<IoVec>, k: nat, start: nat, end: nat)
      requires Shape() && IsSlices(iovs, k, start, end)
      ensures forall i, j :: 0 <= i < j < |iovs| ==> iovs[i].block != iovs[j].block
    {
      forall i, j | 0 <= i < j < |iovs| ensures iovs[i].block != iovs[j].block {
        assert iovs[i].block == nodes[k + i].data && iovs[j].block == nodes[k + j].data;
      }
    }

    /** The bytes of one slice are the bytes of the view from its first to its last position. */
    lemma SliceBytes(v: IoVec, j: nat, start: nat, end: nat)
      requires Shape() && IsSlice(v, j, start, end)
      ensures BlockStart(j, base) + v.off + v.len <= |Concat(blocks)|
      ensures Gather([v]) == Concat(blocks)[BlockStart(j, base) + v.off..BlockStart(j, base) + v.off + v.len]
    {
      ConcatSlice(blocks, base, j, v.off, v.off + v.len);
      assert v.block[..] == blocks[j];
      assert Gather([v]) == v.block[v.off..v.off + v.len] + Gather([]);
    }

    /** Slices that reach `end` hold exactly the bytes of the view from `start` on. */
    lemma {:induction false} SlicesGather(iovs: seq<IoVec>, k: nat, start: nat, end: nat)
      requires Shape() && IsSlices(iovs, k, start, end)
      requires |iovs| > 0 && BlockStart(k + |iovs| - 1, base) < end <= BlockStart(k + |iovs|, base)
      ensures end <= |Concat(blocks)|
      ensures Gather(iovs) == Concat(blocks)[start..end]
      decreases |iovs|
    {
      hide Concat, Gather;
      var m := |iovs| - 1;
      SliceBytes(iovs[m], k + m, start, end);
      GatherLast(iovs);
      if m > 0 {
        InitSlices(iovs, k, start, end);
        SlicesGather(iovs[..m], k, start, BlockStart(k + m, base));
      } else {
        GatherNone(iovs[..m]);
      }
    }

    /** All slices but the last reach exactly to the start of the last one's block. */
    lemma InitSlices(iovs: seq<IoVec>, k: nat, start: nat, end: nat)
      requires base > 0 && IsSlices(iovs, k, start, end) && |iovs| > 1
      ensures IsSlices(iovs[..|iovs| - 1], k, start, BlockStart(k + |iovs| - 1, base))
      ensures BlockStart(k + |iovs| - 1, base) < end
      ensures BlockStart(k + |iovs| - 2, base) + base == BlockStart(k + |iovs| - 1, base)
    {
      var m := |iovs| - 1;
      var o := BlockStart(k + m, base);
      var init := iovs[..m];
      assert IsSlice(iovs[m - 1], k + m - 1, start, end) && IsSlice(iovs[m], k + m, start, end);
      forall i | 0 <= i < m ensures IsSlice(init[i], k + i, start, o) {
        assert IsSlice(iovs[i], k + i, start, end);
        BlockStartMonotone(k + i, k + m, base);
      }
    }
  }

  lemma GatherNone(iovs: seq<IoVec>)
    requires iovs == []
    ensures Gather(iovs) == []
  {}

  /** The bytes a gather list stands for. */
  ghost function Gather(iovs: seq<IoVec>): seq<Byte>
    reads set v | v in iovs :: v.block
  {
    if iovs == [] then []
    else (if iovs[0].off + iovs[0].len <= iovs[0].block.Length
          then iovs[0].block[iovs[0].off..iovs[0].off + iovs[0].len] else []) + Gather(iovs[1..])
  }

  lemma {:induction false} GatherLast(iovs: seq<IoVec>)
    requires iovs != []
    ensures Gather(iovs) == Gather(iovs[..|iovs| - 1]) + Gather([iovs[|iovs| - 1]])
  {
    if |iovs| == 1 {
      assert iovs == [iovs[0]];
    } else {
      GatherLast(iovs[1..]);
      assert iovs[1..][..|iovs| - 2] == iovs[..|iovs| - 1][1..];
    }
  }

  lemma FirstStarts(base: nat)
    ensures BlockStart(0, base) == 0 && BlockStart(1, base) == base
  {}

  lemma NextStart(k: nat, base: nat)
    ensures BlockStart(k + 1, base) == BlockStart(k, base) + base
  {}

  lemma FirstBlock(bs: seq<seq<Byte>>, base: nat)
    requires Uniform(bs, base) && |bs| > 0
    ensures base <= |Concat(bs)| && Concat([bs[0]]) == Concat(bs)[..base]
  {
    assert Concat([bs[0]]) == bs[0] + Concat([]);
  }

  lemma PatchNothing(mem: seq<Byte>, at: nat, buf: seq<Byte>)
    requires at <= |mem|
    ensures Patch(mem, at, buf[..0]) == mem
  {
    assert buf[..0] == [];
  }

  lemma PatchStep(mem: seq<Byte>, at: nat, buf: seq<Byte>, i: nat, j: nat)
    requires i <= j <= |buf| && at + |buf| <= |mem|
    ensures Patch(Patch(mem, at, buf[..i]), at + i, buf[i..j]) == Patch(mem, at, buf[..j])
  {
    PatchTwice(mem, at, buf[..i], buf[i..j]);
    assert buf[..i] + buf[i..j] == buf[..j];
  }

  lemma WroteNothing(f: Flat, base: nat)
    requires f.Valid(base)
    ensures Wrote(f, [], f, base)
  {
    assert Grew(f, 0, f, base);
    assert Patch(f.mem, f.pos, []) == f.mem;
  }

  /** Overwriting part of block `k` is overwriting the same part of the concatenation. */
  lemma PatchBlock(bs: seq<seq<Byte>>, base: nat, k: nat, npos: nat, src: seq<Byte>)
    requires Uniform(bs, base) && k < |bs| && npos + |src| <= base
    ensures BlockStart(k, base) + npos + |src| <= |Concat(bs)|
    ensures Concat(bs[k := Patch(bs[k], npos, src)]) == Patch(Concat(bs), BlockStart(k, base) + npos, src)
  {
    hide Concat, BlockStart, Patch;
    var o, c := BlockStart(k, base), Concat(bs);
    ConcatSlice(bs, base, k, 0, base);
    assert bs[k][0..base] == bs[k];
    PatchPart(c, o, bs[k], npos, src);
    ConcatUpdate(bs, base, k, Patch(bs[k], npos, src));
  }

  lemma PatchPart(c: seq<Byte>, o: nat, b: seq<Byte>, npos: nat, src: seq<Byte>)
    requires o + |b| <= |c| && c[o..o + |b|] == b && npos + |src| <= |b|
    ensures Patch(c, o + npos, src) == c[..o] + Patch(b, npos, src) + c[o + |b|..]
  {
    var r := c[..o] + Patch(b, npos, src) + c[o + |b|..];
    forall i | 0 <= i < |c| ensures Patch(c, o + npos, src)[i] == r[i] {
      if o <= i < o + |b| { assert b[i - o] == c[i]; }
    }
  }

  /** Blocks linked behind the old ones extend the view and change none of it. */
  lemma GrewByBlocks(old_: seq<seq<Byte>>, new_: seq<seq<Byte>>, pos: nat, size: nat, n: nat, base: nat)
    requires base > 0 && Uniform(new_, base) && old_ <= new_
    requires pos <= size <= BlockStart(|old_|, base)
    requires BlockStart(|new_|, base) == GrownCapacity(BlockStart(|old_|, base), pos, n, base)
    ensures Grew(Flat(Concat(old_), pos, size), n, Flat(Concat(new_), pos, size), base)
  {
    assert new_ == old_ + new_[|old_|..];
    ConcatAppend(old_, new_[|old_|..]);
    assert Uniform(old_, base);
    ConcatLength(old_, base);
    ConcatLength(new_, base);
  }
}
