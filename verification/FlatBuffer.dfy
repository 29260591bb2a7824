/** The flat view of a ByteArray: all bytes of its blocks in order, a cursor and a length. */
module FlatBuffer {
  import opened Bytes
  import opened Numbers

  /** `mem` is the whole capacity; the first `size` bytes of it are the content. */
  datatype Flat = Flat(mem: seq<Byte>, pos: nat, size: nat) {
    predicate Valid(base: nat) {
      base > 0 && pos <= size <= |mem|
    }

    function ReadSize(): nat
      requires pos <= size
    {
      size - pos
    }

    function Content(): seq<Byte>
      requires size <= |mem|
    {
      mem[..size]
    }
  }

  /** Where block `k` starts: k * base, by addition. */
  function BlockStart(k: nat, base: nat): (r: nat) {
    if k == 0 then 0 else BlockStart(k - 1, base) + base
  }

  lemma {:induction false} BlockStartIs(k: nat, base: nat)
    ensures BlockStart(k, base) == k * base
  {
    if k > 0 { BlockStartIs(k - 1, base); }
  }

  lemma {:induction false} BlockStartMonotone(a: nat, b: nat, base: nat)
    requires a <= b
    ensures BlockStart(a, base) <= BlockStart(b, base)
    ensures a < b ==> BlockStart(a, base) + base <= BlockStart(b, base)
  {
    if a < b { BlockStartMonotone(a, b - 1, base); }
  }

  lemma {:induction false} BlockStartSum(a: nat, b: nat, base: nat)
    ensures BlockStart(a + b, base) == BlockStart(a, base) + BlockStart(b, base)
  {
    if b > 0 { BlockStartSum(a, b - 1, base); }
  }

  /** A position in block `k` divides into `k` and its offset. */
  lemma BlockDivMod(k: nat, base: nat, r: nat)
    requires r < base
    ensures (BlockStart(k, base) + r) / base == k && (BlockStart(k, base) + r) % base == r
  {
    BlockStartIs(k, base);
    var x := BlockStart(k, base) + r;
    assert x == (x / base) * base + x % base;
    QuotientUnique(x / base, x % base, k, r, base);
  }

  /** How many blocks of `base` bytes hold `n` bytes. */
  function BlocksFor(n: nat, base: nat): (c: nat)
    requires base > 0
    ensures n <= BlockStart(c, base)
    ensures n > 0 ==> c > 0 && BlockStart(c - 1, base) < n
  {
    if n <= base then (if n == 0 then 0 else 1) else 1 + BlocksFor(n - base, base)
  }

  /** Recursion by subtraction is the exact ceiling of n / base. */
  lemma {:induction false} BlocksForIsCeiling(n: nat, base: nat)
    requires base > 0
    ensures BlocksFor(n, base) == (n + base - 1) / base
  {
    if n <= base {
      if n > 0 { BlockDivMod(1, base, n - 1); } else { BlockDivMod(0, base, base - 1); }
    } else {
      BlocksForIsCeiling(n - base, base);
      var m := n - base + base - 1;
      BlockStartIs(m / base + 1, base);
      BlockDivMod(m / base + 1, base, m % base);
    }
  }

  /** `ceil(1.0 * n / base)`, taken as exact. */
  function Ceil(n: nat, base: nat): (c: nat)
    requires base > 0
    ensures c == BlocksFor(n, base)
  {
    BlocksForIsCeiling(n, base);
    (n + base - 1) / base
  }

  /** The capacity after making room for `n` bytes at `pos`. */
  function GrownCapacity(cap: nat, pos: nat, n: nat, base: nat): (r: nat)
    requires base > 0 && pos <= cap
    ensures r >= cap && r >= pos + n
  {
    if n <= cap - pos then cap else cap + BlockStart(BlocksFor(n - (cap - pos), base), base)
  }

  /** `g` is `f` after growing for `n` more bytes; the new bytes are whatever the allocator left there. */
  ghost predicate Grew(f: Flat, n: nat, g: Flat, base: nat) {
    && f.Valid(base) && g.Valid(base)
    && g.pos == f.pos && g.size == f.size
    && |g.mem| == GrownCapacity(|f.mem|, f.pos, n, base)
    && g.mem[..|f.mem|] == f.mem
  }

  /** Overwrite `mem` from `at` with `d`. */
  function Patch(mem: seq<Byte>, at: nat, d: seq<Byte>): (r: seq<Byte>)
    requires at + |d| <= |mem|
    ensures |r| == |mem|
  {
    mem[..at] + d + mem[at + |d|..]
  }

  lemma PatchTwice(mem: seq<Byte>, at: nat, d: seq<Byte>, e: seq<Byte>)
    requires at + |d| + |e| <= |mem|
    ensures Patch(Patch(mem, at, d), at + |d|, e) == Patch(mem, at, d + e)
  {}

  /** `g` is `f` after writing `d` at its cursor. */
  ghost predicate Wrote(f: Flat, d: seq<Byte>, g: Flat, base: nat) {
    exists h :: Grew(f, |d|, h, base)
             && g == Flat(Patch(h.mem, f.pos, d), f.pos + |d|, Max(f.size, f.pos + |d|))
  }

  /** What `read` does: bytes, an out_of_range exception, or a null dereference of the current node. */
  datatype ReadResult = Ok(bytes: seq<Byte>) | OutOfRange | NullNode

  /** Reading `n` bytes: the size test comes first, then the current node is dereferenced even for
      `n == 0`, and at capacity there is none. */
  function ReadOutcome(f: Flat, n: nat): ReadResult
    requires f.pos <= f.size <= |f.mem|
  {
    if n > f.ReadSize() then OutOfRange
    else if f.pos == |f.mem| then NullNode
    else Ok(f.mem[f.pos..f.pos + n])
  }

  function AfterRead(f: Flat, n: nat): Flat
    requires f.pos <= f.size <= |f.mem|
  {
    if ReadOutcome(f, n).Ok? then f.(pos := f.pos + n) else f
  }

  /** What a caller can see of a write: the cursor moves over exactly the bytes written, everything
      before and (within the old capacity) after them is untouched, and nothing else grows. */
  lemma WroteEffect(f: Flat, d: seq<Byte>, g: Flat, base: nat)
    requires Wrote(f, d, g, base)
    ensures f.Valid(base) && g.Valid(base) && g.pos == f.pos + |d| && g.size == Max(f.size, g.pos)
    ensures |g.mem| == GrownCapacity(|f.mem|, f.pos, |d|, base)
    ensures g.mem[..f.pos] == f.mem[..f.pos] && g.mem[f.pos..g.pos] == d
    ensures g.pos <= |f.mem| ==> g.mem[g.pos..] == f.mem[g.pos..]
    ensures f.pos == f.size ==> g.Content() == f.Content() + d
    ensures f.pos + |d| <= f.size ==> g.Content() == Patch(f.Content(), f.pos, d)
  {
    var h :| Grew(f, |d|, h, base)
          && g == Flat(Patch(h.mem, f.pos, d), f.pos + |d|, Max(f.size, f.pos + |d|));
    assert h.mem[..f.pos] == h.mem[..|f.mem|][..f.pos];
    if g.pos <= |f.mem| {
      assert h.mem == f.mem;
    }
    if f.pos + |d| <= f.size {
      assert g.Content() == Patch(f.Content(), f.pos, d);
    }
  }
}

/** Concatenations of equally long blocks, addressed by block number and offset. */
module Blocks {
  import opened Bytes
  import opened FlatBuffer

  ghost predicate Uniform(bs: seq<seq<Byte>>, base: nat) {
    forall i :: 0 <= i < |bs| ==> |bs[i]| == base
  }

  ghost function Concat(bs: seq<seq<Byte>>): seq<Byte> {
    if bs == [] then [] else bs[0] + Concat(bs[1..])
  }

  lemma {:induction false} ConcatLength(bs: seq<seq<Byte>>, base: nat)
    requires Uniform(bs, base)
    ensures |Concat(bs)| == BlockStart(|bs|, base)
  {
    if bs != [] {
      ConcatLength(bs[1..], base);
    }
  }

  lemma {:induction false} ConcatAppend(a: seq<seq<Byte>>, b: seq<seq<Byte>>)
    ensures Concat(a + b) == Concat(a) + Concat(b)
  {
    if a == [] {
      assert a + b == b;
    } else {
      ConcatUnfolds(a);
      ConcatUnfolds(a + b);
      assert (a + b)[0] == a[0] && (a + b)[1..] == a[1..] + b;
      hide Concat;
      ConcatAppend(a[1..], b);
      Joins(a[0], Concat(a[1..]), Concat(b));
    }
  }

  lemma Joins(x: seq<Byte>, y: seq<Byte>, z: seq<Byte>)
    ensures x + (y + z) == x + y + z
  {}

  lemma ConcatUnfolds(a: seq<seq<Byte>>)
    requires a != []
    ensures Concat(a) == a[0] + Concat(a[1..])
  {}

  lemma ConcatSplit(bs: seq<seq<Byte>>, k: nat)
    requires k < |bs|
    ensures Concat(bs) == Concat(bs[..k]) + bs[k] + Concat(bs[k + 1..])
  {
    assert bs == bs[..k] + bs[k..];
    ConcatAppend(bs[..k], bs[k..]);
    assert bs[k..][0] == bs[k] && bs[k..][1..] == bs[k + 1..];
  }

  /** Part of block `k` is the corresponding stretch of the concatenation. */
  lemma ConcatSlice(bs: seq<seq<Byte>>, base: nat, k: nat, lo: nat, hi: nat)
    requires Uniform(bs, base) && k < |bs| && lo <= hi <= base
    ensures BlockStart(k, base) + hi <= |Concat(bs)|
    ensures Concat(bs)[BlockStart(k, base) + lo..BlockStart(k, base) + hi] == bs[k][lo..hi]
  {
    ConcatSplit(bs, k);
    ConcatLength(bs[..k], base);
  }

  lemma ReplaceMiddle(a: seq<Byte>, x: seq<Byte>, y: seq<Byte>, c: seq<Byte>)
    requires |x| == |y|
    ensures (a + x + c)[..|a|] + y + (a + x + c)[|a| + |x|..] == a + y + c
  {}

  /** Replacing block `k` replaces exactly its stretch of the concatenation. */
  lemma ConcatUpdate(bs: seq<seq<Byte>>, base: nat, k: nat, b: seq<Byte>)
    requires Uniform(bs, base) && k < |bs| && |b| == base
    ensures BlockStart(k, base) + base <= |Concat(bs)|
    ensures Concat(bs[k := b]) == Concat(bs)[..BlockStart(k, base)] + b + Concat(bs)[BlockStart(k, base) + base..]
  {
    hide Concat, BlockStart;
    ConcatSplit(bs, k);
    ConcatSplit(bs[k := b], k);
    assert bs[k := b][..k] == bs[..k] && bs[k := b][k + 1..] == bs[k + 1..];
    ConcatLength(bs[..k], base);
    ReplaceMiddle(Concat(bs[..k]), bs[k], b, Concat(bs[k + 1..]));
  }
}
