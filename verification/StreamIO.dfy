/** Socket streams over ByteArray: scatter reads, gather writes, and the fixed-size loops. */
module StreamIO {
  import opened Bytes
  import opened FlatBuffer
  import opened Numbers
  import opened Blocks
  import opened ByteArrays

  /** `g` is `f` after `d` arrived at its cursor; room may have been made for more than arrived. */
  ghost predicate Received(f: Flat, d: seq<Byte>, g: Flat) {
    && f.pos <= f.size <= |f.mem| <= |g.mem|
    && g.pos == f.pos + |d| <= |g.mem| && g.size == Max(f.size, g.pos)
    && g.mem[..f.pos] == f.mem[..f.pos]
    && g.mem[f.pos..g.pos] == d
    && (forall i :: g.pos <= i < |f.mem| ==> g.mem[i] == f.mem[i])
  }

  lemma ReceivedNothing(f: Flat)
    requires f.pos <= f.size <= |f.mem|
    ensures Received(f, [], f)
  {}

  lemma ReceivedMore(f: Flat, d: seq<Byte>, g: Flat, e: seq<Byte>, h: Flat)
    requires Received(f, d, g) && Received(g, e, h)
    ensures Received(f, d + e, h)
  {
    assert h.mem[..f.pos] == h.mem[..g.pos][..f.pos] == g.mem[..g.pos][..f.pos] == g.mem[..f.pos];
    assert h.mem[f.pos..g.pos] == h.mem[..g.pos][f.pos..g.pos];
    assert h.mem[f.pos..h.pos] == h.mem[f.pos..g.pos] + h.mem[g.pos..h.pos];
  }

  /** Bytes received at the end of the content are appended to it, in order. */
  lemma ReceivedAppends(f: Flat, d: seq<Byte>, g: Flat)
    requires Received(f, d, g) && f.pos == f.size
    ensures g.Content() == f.Content() + d
  {
    assert g.mem[..g.pos] == g.mem[..f.pos] + g.mem[f.pos..g.pos];
  }

  lemma GrewThenPatched(f: Flat, n: nat, h: Flat, d: seq<Byte>, base: nat)
    requires Grew(f, n, h, base) && |d| <= n
    ensures f.pos + |d| <= |h.mem|
    ensures Received(f, d, Flat(Patch(h.mem, f.pos, d), f.pos + |d|, Max(f.size, f.pos + |d|)))
  {
    assert h.mem[..f.pos] == h.mem[..|f.mem|][..f.pos];
  }

  /** What one system call moves at most; it fits in the int that recv and send return. */
  const MAX_TRANSFER := 0x7fff_f000

  /** A connected socket. `inbound` is what the peer sent and was not received yet, `outbound` what was
      sent. `replies` decides how much each call moves: a positive entry is a bound on the bytes moved,
      any other is returned as it is, and when it is used up calls report end of stream. */
  class Socket {
    var connected: bool
    var inbound: seq<Byte>
    var outbound: seq<Byte>
    var replies: seq<int>

    constructor (i: seq<Byte>, r: seq<int>)
      ensures connected && inbound == i && outbound == [] && replies == r
    {
      connected := true;
      inbound := i;
      outbound := [];
      replies := r;
    }

    function Reply(): int
      reads this
    {
      if replies == [] then 0 else replies[0]
    }

    method NextReply() returns (c: int)
      modifies this`replies
      ensures c == old(Reply())
    {
      c := Reply();
      if replies != [] { replies := replies[1..]; }
    }

    /** recvmsg: fill the slices in order with what arrived. */
    method Recv(iovs: seq<IoVec>, total: nat, ba: ByteArray) returns (rt: int)
      requires ba.Valid()
      requires ba.IsSlices(iovs, ba.at, ba.position, ba.position + total)
      requires total > 0 ==>
        && |iovs| > 0
        && BlockStart(ba.at + |iovs| - 1, ba.base) < ba.position + total <= BlockStart(ba.at + |iovs|, ba.base)
      requires ba.position + total <= ba.capacity
      requires this !in ba.Repr
      modifies this`inbound, this`replies, ba`blocks, set n | n in ba.nodes :: n.data
      ensures ba.Valid()
      ensures rt <= total && (rt <= 0 ==> inbound == old(inbound) && ba.View() == old(ba.View()))
      ensures rt > 0 ==> rt <= |old(inbound)| && inbound == old(inbound)[rt..]
      ensures rt > 0 ==> ba.View() == old(ba.View()).(mem := Patch(old(ba.View().mem), ba.position, old(inbound)[..rt]))
    {
      hide Concat, BlockStart;
      var c := NextReply();
      rt := if c <= 0 then c else Min(Min(c, MAX_TRANSFER), Min(total, |inbound|));
      if rt <= 0 { return; }
      Fill(iovs, total, inbound[..rt], ba);
      inbound := inbound[rt..];
    }

    /** The next slice takes what is left for it; `mem` is the view before the first. */
    static method FillSlice(iovs: seq<IoVec>, i: nat, ghost end: nat, d: seq<Byte>, done: nat, ghost mem: seq<Byte>,
            ba: ByteArray)
      returns (n: nat)
      requires ba.Shape() && i < |iovs| && ba.IsSlices(iovs, ba.at, ba.position, end)
      requires BlockStart(ba.at + |iovs| - 1, ba.base) < end <= BlockStart(ba.at + |iovs|, ba.base)
      requires done < |d| && ba.position + |d| <= end && ba.position + |d| <= |mem|
      requires SliceStart(ba, ba.at + i, iovs[i]) == ba.position + done
      requires Concat(ba.blocks) == Patch(mem, ba.position, d[..done])
      modifies ba`blocks, iovs[i].block
      ensures ba.Shape() && ba.IsSlices(iovs, ba.at, ba.position, end)
      ensures 0 < n <= |d| - done && Concat(ba.blocks) == Patch(mem, ba.position, d[..done + n])
      ensures done + n < |d| ==> i + 1 < |iovs| && SliceStart(ba, ba.at + i + 1, iovs[i + 1]) == ba.position + done + n
    {
      hide Concat, Patch, BlockStart, ByteArray.Shape;
      var v := iovs[i];
      SliceEnd(ba, iovs, i, ba.at, ba.position, end);
      n := Min(v.len, |d| - done);
      ba.CopyIn(v.block, ba.at + i, v.off, d[done..done + n]);
      PatchStep(mem, ba.position, d, done, done + n);
    }

    static method Fill(iovs: seq<IoVec>, total: nat, d: seq<Byte>, ba: ByteArray)
      requires ba.Valid() && 0 < |d| <= total && ba.position + total <= ba.capacity
      requires ba.IsSlices(iovs, ba.at, ba.position, ba.position + total)
      requires |iovs| > 0
      requires BlockStart(ba.at + |iovs| - 1, ba.base) < ba.position + total <= BlockStart(ba.at + |iovs|, ba.base)
      modifies ba`blocks, set n | n in ba.nodes :: n.data
      ensures ba.Valid()
      ensures ba.View() == old(ba.View()).(mem := Patch(old(ba.View().mem), ba.position, d))
    {
      hide Concat, Patch, BlockStart, ByteArray.Shape, ByteArray.IsSlices;
      var done: nat, i: nat := 0, 0;
      SliceEnd(ba, iovs, 0, ba.at, ba.position, ba.position + total);
      ghost var mem := ba.View().mem;
      PatchNothing(mem, ba.position, d);
      while done < |d|
        invariant done <= |d| && ba.Shape() && ba.IsSlices(iovs, ba.at, ba.position, ba.position + total)
        invariant |mem| == ba.capacity && Concat(ba.blocks) == Patch(mem, ba.position, d[..done])
        invariant done < |d| ==> i < |iovs| && SliceStart(ba, ba.at + i, iovs[i]) == ba.position + done
      {
        SliceEnd(ba, iovs, i, ba.at, ba.position, ba.position + total);
        var n := FillSlice(iovs, i, ba.position + total, d, done, mem, ba);
        done := done + n;
        i := i + 1;
      }
      assert d[..done] == d;
    }

    /** sendmsg: take what the network accepts from the front of the slices. */
    method Send(iovs: seq<IoVec>, total: nat) returns (rt: int)
      requires total == |Gather(iovs)|
      modifies this`outbound, this`replies
      ensures rt <= total
      ensures outbound == old(outbound) + (if rt > 0 then old(Gather(iovs))[..rt] else [])
    {
      var bytes := GatherBytes(iovs);
      var c := NextReply();
      rt := if c <= 0 then c else Min(Min(c, MAX_TRANSFER), total);
      if rt > 0 {
        outbound := outbound + bytes[..rt];
      }
    }
  }

  /** The position where slice `v` of block `k` starts. */
  ghost function SliceStart(ba: ByteArray, k: nat, v: IoVec): nat
    reads ba
  {
    BlockStart(k, ba.base) + v.off
  }

  /** Each slice ends where the next one starts, the last one at `end`. */
  lemma SliceEnd(ba: ByteArray, iovs: seq<IoVec>, i: nat, k: nat, start: nat, end: nat)
    requires ba.base > 0 && ba.IsSlices(iovs, k, start, end) && i < |iovs|
    requires BlockStart(k + |iovs| - 1, ba.base) < end <= BlockStart(k + |iovs|, ba.base)
    ensures k + i < |ba.nodes| && iovs[i].block == ba.nodes[k + i].data
    ensures iovs[i].len > 0 && iovs[i].off + iovs[i].len <= ba.base
    ensures i == 0 ==> SliceStart(ba, k, iovs[0]) == start
    ensures SliceStart(ba, k + i, iovs[i]) + iovs[i].len
         == if i + 1 < |iovs| then SliceStart(ba, k + i + 1, iovs[i + 1]) else end
  {
    assert ba.IsSlice(iovs[i], k + i, start, end);
    assert BlockStart(k + i + 1, ba.base) == BlockStart(k + i, ba.base) + ba.base;
    if i + 1 < |iovs| {
      assert ba.IsSlice(iovs[i + 1], k + i + 1, start, end);
      BlockStartMonotone(k, k + i + 1, ba.base);
    }
  }

  method GatherBytes(iovs: seq<IoVec>) returns (bytes: seq<Byte>)
    ensures bytes == old(Gather(iovs))
  {
    bytes := [];
    for i := 0 to |iovs|
      invariant bytes + Gather(iovs[i..]) == Gather(iovs)
    {
      var v := iovs[i];
      assert iovs[i..][0] == v && iovs[i..][1..] == iovs[i + 1..];
      var piece := if v.off + v.len <= v.block.Length then v.block[v.off..v.off + v.len] else [];
      assert bytes + (piece + Gather(iovs[i + 1..])) == (bytes + piece) + Gather(iovs[i + 1..]);
      bytes := bytes + piece;
    }
  }

  /** The bytes that a fixed-size transfer of a size_t goes for: its loop counts in int64_t. */
  function Wanted(length: nat): nat { if length < TWO_63 then length else 0 }

  class SocketStream {
    const socket: Socket

    constructor (s: Socket)
      ensures socket == s
    {
      socket := s;
    }

    /** One receive into room made at the array's cursor; the cursor moves over what arrived. */
    method Read(ba: ByteArray, length: nat) returns (rt: int)
      requires ba.Valid() && socket !in ba.Repr
      modifies ba.Repr, socket
      ensures ba.Valid() && socket !in ba.Repr && fresh(ba.Repr - old(ba.Repr)) && old(ba.Repr) <= ba.Repr
      ensures rt <= length && socket.connected == old(socket.connected) && socket.outbound == old(socket.outbound)
      ensures |socket.inbound| <= |old(socket.inbound)|
      ensures var n := if rt > 0 then rt else 0;
        && n <= |old(socket.inbound)| && socket.inbound == old(socket.inbound)[n..]
        && Received(old(ba.View()), old(socket.inbound)[..n], ba.View())
    {
      hide Received, Grew, Patch, Concat, BlockStart, ByteArray.Shape;
      if !socket.connected {
        ReceivedNothing(ba.View());
        return -1;
      }
      ghost var f := ba.View();
      var iovs, total := ba.GetWriteBuffers(length);
      ba.Owns();
      ghost var h := ba.View();
      RoomFor(f, length, h, ba.base);
      rt := socket.Recv(iovs, total, ba);
      GrewThenPatched(f, length, h, [], ba.base);
      PatchNothing(h.mem, f.pos, []);
      if rt > 0 {
        GrewThenPatched(f, length, h, old(socket.inbound)[..rt], ba.base);
        var ok := ba.SetPosition(ba.position + rt);
      }
    }

    /** The loop of readFixSize over an array: it either gets all `length` bytes and returns their number as
        an int, or stops at the first non-positive receive, and then returns that. */
    method ReadFixSize(ba: ByteArray, length: nat) returns (r: int, ghost n: nat)
      requires ba.Valid() && socket !in ba.Repr && length < TWO_64
      modifies ba.Repr, socket
      ensures ba.Valid() && fresh(ba.Repr - old(ba.Repr))
      ensures n <= Wanted(length) && n <= |old(socket.inbound)|
      ensures if n == Wanted(length) then r == ToInt32(length) else r <= 0
      ensures length < TWO_31 ==> (n == length <==> r == length)
      ensures socket.inbound == old(socket.inbound)[n..]
      ensures Received(old(ba.View()), old(socket.inbound)[..n], ba.View())
    {
      hide Received, ByteArray.Shape, ByteArray.CursorAt, Concat;
      ghost var f, all := ba.View(), socket.inbound;
      ReceivedNothing(f);
      var left := ToInt64(length);
      n := 0;
      while left > 0
        invariant ba.Valid() && socket !in ba.Repr && fresh(ba.Repr - old(ba.Repr))
        invariant n + (if left > 0 then left else 0) == Wanted(length) && n <= |all| && socket.inbound == all[n..]
        invariant Received(f, all[..n], ba.View())
      {
        ghost var g, in0 := ba.View(), socket.inbound;
        var len := Read(ba, left);
        if len <= 0 {
          ReceivedMore(f, all[..n], g, in0[..0], ba.View());
          assert all[..n] + in0[..0] == all[..n];
          return len, n;
        }
        ReceivedMore(f, all[..n], g, in0[..len], ba.View());
        assert all[..n] + in0[..len] == all[..n + len];
        n := n + len;
        left := left - len;
      }
      return ToInt32(length), n;
    }

    /** One gather send of at most `length` unread bytes; the cursor moves over what was accepted. */
    method Write(ba: ByteArray, length: nat) returns (rt: int)
      requires ba.Valid() && socket !in ba.Repr
      modifies ba`position, ba`size, ba`cur, ba`at, socket
      ensures ba.Valid() && socket.inbound == old(socket.inbound)
      ensures rt <= length
      ensures var n := if rt > 0 then rt else 0; var f := old(ba.View());
        && n <= f.ReadSize() && ba.View() == f.(pos := f.pos + n)
        && socket.outbound == old(socket.outbound) + f.mem[f.pos..f.pos + n]
    {
      hide Concat, BlockStart, Gather, ByteArray.Shape, ByteArray.IsSlices;
      if !socket.connected { return -1; }
      ghost var f := ba.View();
      var iovs, total := ba.GetReadBuffers(length);
      rt := socket.Send(iovs, total);
      if rt > 0 {
        SlicePrefix(f.mem, f.pos, total, rt);
        var ok := ba.SetPosition(ba.position + rt);
      }
    }

    /** The loop of writeFixSize over an array. */
    method WriteFixSize(ba: ByteArray, length: nat) returns (r: int, ghost n: nat)
      requires ba.Valid() && socket !in ba.Repr && length < TWO_64
      modifies ba`position, ba`size, ba`cur, ba`at, socket
      ensures ba.Valid()
      ensures n <= Wanted(length) && n <= old(ba.View()).ReadSize()
      ensures if n == Wanted(length) then r == ToInt32(length) else r <= 0
      ensures length < TWO_31 ==> (n == length <==> r == length)
      ensures ba.View() == old(ba.View()).(pos := old(ba.position) + n)
      ensures socket.outbound == old(socket.outbound) + old(ba.View()).mem[old(ba.position)..old(ba.position) + n]
    {
      hide ByteArray.Shape, ByteArray.CursorAt, Concat;
      ghost var f, sent := ba.View(), socket.outbound;
      var left := ToInt64(length);
      n := 0;
      assert sent + f.mem[f.pos..f.pos + 0] == sent;
      while left > 0
        invariant ba.Valid() && n + (if left > 0 then left else 0) == Wanted(length) && n <= f.ReadSize()
        invariant ba.View() == f.(pos := f.pos + n)
        invariant socket.outbound == sent + f.mem[f.pos..f.pos + n]
      {
        var len := Write(ba, left);
        if len <= 0 {
          assert f.mem[f.pos + n..f.pos + n] == [];
          return len, n;
        }
        SliceJoin(sent, f.mem, f.pos, n, len);
        n := n + len;
        left := left - len;
      }
      return ToInt32(length), n;
    }
  }

  lemma SlicePrefix(mem: seq<Byte>, a: nat, n: nat, k: nat)
    requires k <= n && a + n <= |mem|
    ensures mem[a..a + n][..k] == mem[a..a + k]
  {}

  lemma SliceJoin(sent: seq<Byte>, mem: seq<Byte>, a: nat, n: nat, len: nat)
    requires a + n + len <= |mem|
    ensures sent + mem[a..a + n] + mem[a + n..a + n + len] == sent + mem[a..a + n + len]
  {}

  lemma RoomFor(f: Flat, n: nat, h: Flat, base: nat)
    requires Grew(f, n, h, base)
    ensures f.Valid(base) && h.pos == f.pos && h.size == f.size && f.pos + n <= |h.mem|
  {}
}
