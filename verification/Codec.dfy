/** Byte swapping, the fixed-width, varint and zigzag encodings of ByteArray. */
module Codec {
  import opened Bytes
  import opened Numbers

  // ---------- byteswap ----------

  /** The word with the octets of `u` in the opposite order. */
  function ByteSwap(u: nat, w: nat): (r: nat)
    ensures r < Pow256(w)
  {
    FromLittleEndian(Reverse(LittleEndian(u, w)))
  }

  lemma ByteSwapTwice(u: nat, w: nat)
    requires u < Pow256(w)
    ensures ByteSwap(ByteSwap(u, w), w) == u
  {
    LittleEndianInverse(Reverse(LittleEndian(u, w)));
    ReverseTwice(LittleEndian(u, w));
    LittleEndianRoundTrip(u, w);
  }

  /** What memory holds for the word `u` on a little- or big-endian host. */
  function HostBytes(u: nat, w: nat, hostLittle: bool): (r: seq<Byte>)
    ensures |r| == w
  {
    if hostLittle then LittleEndian(u, w) else Reverse(LittleEndian(u, w))
  }

  function FromHostBytes(bs: seq<Byte>, hostLittle: bool): (u: nat)
    ensures u < Pow256(|bs|)
  {
    if hostLittle then FromLittleEndian(bs) else FromLittleEndian(Reverse(bs))
  }

  /** The octets writeFintN/writeFuintN hand to `write`: swap unless the array's order is the host's. */
  function FixedBytes(u: nat, w: nat, little: bool, hostLittle: bool): (r: seq<Byte>)
    ensures |r| == w
  {
    HostBytes(if little != hostLittle then ByteSwap(u, w) else u, w, hostLittle)
  }

  /** What readFintN/readFuintN make of the octets read. */
  function FixedValue(bs: seq<Byte>, little: bool, hostLittle: bool): (u: nat)
    ensures u < Pow256(|bs|)
  {
    var v := FromHostBytes(bs, hostLittle);
    if little == hostLittle then v else ByteSwap(v, |bs|)
  }

  /** The wire format depends on the array's byte order only, never on the host's. */
  lemma FixedBytesPortable(u: nat, w: nat, little: bool, hostLittle: bool)
    ensures FixedBytes(u, w, little, hostLittle)
         == if little then LittleEndian(u, w) else Reverse(LittleEndian(u, w))
  {
    LittleEndianInverse(Reverse(LittleEndian(u, w)));
    ReverseTwice(LittleEndian(u, w));
  }

  lemma FixedRoundTrip(u: nat, w: nat, little: bool, hostLittle: bool)
    requires u < Pow256(w)
    ensures FixedValue(FixedBytes(u, w, little, hostLittle), little, hostLittle) == u
  {
    var v := if little != hostLittle then ByteSwap(u, w) else u;
    ReverseTwice(LittleEndian(v, w));
    LittleEndianRoundTrip(v, w);
    ByteSwapTwice(u, w);
  }

  // ---------- two's complement ----------

  predicate InSigned(v: int, m: nat) { 0 - m <= 2 * v < m }

  function ToUnsigned(v: int, m: nat): (u: nat)
    requires InSigned(v, m)
    ensures u < m
  {
    if v < 0 then v + m else v
  }

  function ToSigned(u: nat, m: nat): (v: int)
    requires u < m
    ensures m % 2 == 0 ==> InSigned(v, m)
  {
    if 2 * u >= m then u - m else u
  }

  lemma SignedRoundTrip(v: int, m: nat)
    requires InSigned(v, m)
    ensures ToSigned(ToUnsigned(v, m), m) == v
  {}

  // ---------- zigzag ----------

  /** Conversion to an unsigned word of `m` values. */
  function Wrap(x: int, m: nat): (r: nat)
    requires m > 0
    ensures r < m && (0 <= x < m ==> r == x)
  {
    SmallModulus(x, m);
    x % m
  }

  /** `(uint32_t)(-v) * 2 - 1` or `v * 2`, every operation taken modulo 2^32. */
  function EncodeZigzag32(v: int): (u: nat)
    requires InSigned(v, TWO_32)
    ensures u < TWO_32
  {
    if v < 0 then Wrap(Wrap(-v, TWO_32) * 2 - 1, TWO_32) else Wrap(v * 2, TWO_32)
  }

  function EncodeZigzag64(v: int): (u: nat)
    requires InSigned(v, TWO_64)
    ensures u < TWO_64
  {
    if v < 0 then Wrap(Wrap(-v, TWO_64) * 2 - 1, TWO_64) else Wrap(v * 2, TWO_64)
  }

  /** `x ^ -(bit)` in `m`-valued words: `-(0)` is all zeros and `-(1)` all ones. */
  function XorNegatedBit(x: nat, bit: nat, m: nat): (r: nat)
    requires x < m && bit < 2
    ensures r < m
  {
    if bit == 0 then x else m - 1 - x
  }

  function DecodeZigzag32(u: nat): int
    requires u < TWO_32
  {
    ToSigned(XorNegatedBit(u / 2, u % 2, TWO_32), TWO_32)
  }

  function DecodeZigzag64(u: nat): int
    requires u < TWO_64
  {
    ToSigned(XorNegatedBit(u / 2, u % 2, TWO_64), TWO_64)
  }

  /** Zigzag is the bijection 0, -1, 1, -2, ... of the signed onto the unsigned words, minimum included. */
  lemma Zigzag32Bijection(v: int, u: nat)
    requires InSigned(v, TWO_32) && u < TWO_32
    ensures EncodeZigzag32(v) == if v < 0 then -2 * v - 1 else 2 * v
    ensures DecodeZigzag32(EncodeZigzag32(v)) == v
    ensures InSigned(DecodeZigzag32(u), TWO_32) && EncodeZigzag32(DecodeZigzag32(u)) == u
  {}

  lemma Zigzag64Bijection(v: int, u: nat)
    requires InSigned(v, TWO_64) && u < TWO_64
    ensures EncodeZigzag64(v) == if v < 0 then -2 * v - 1 else 2 * v
    ensures DecodeZigzag64(EncodeZigzag64(v)) == v
    ensures InSigned(DecodeZigzag64(u), TWO_64) && EncodeZigzag64(DecodeZigzag64(u)) == u
  {}

  // ---------- varint ----------

  function Pow2(n: nat): (r: nat)
    ensures r > 0
  {
    if n == 0 then 1 else 2 * Pow2(n - 1)
  }

  lemma Pow2Seven(n: nat)
    ensures Pow2(n + 7) == 128 * Pow2(n)
  {
    assert Pow2(n + 7) == 2 * 2 * Pow2(n + 5);
    assert Pow2(n + 5) == 2 * 2 * Pow2(n + 3);
    assert Pow2(n + 3) == 2 * 2 * Pow2(n + 1);
  }

  lemma Pow2Words()
    ensures Pow2(32) == TWO_32 && Pow2(64) == TWO_64 && Pow2(4) == 16 && Pow2(1) == 2
  {
    assert Pow2(4) == 16;
    Pow2Seven(4); Pow2Seven(11); Pow2Seven(18); Pow2Seven(25); Pow2Seven(32);
    Pow2Seven(39); Pow2Seven(46); Pow2Seven(1); Pow2Seven(8); Pow2Seven(15); Pow2Seven(22); Pow2Seven(29);
    Pow2Seven(36); Pow2Seven(43); Pow2Seven(50); Pow2Seven(57);
    assert Pow2(32) == 128 * 128 * 128 * 128 * Pow2(4);
    assert Pow2(64) == 128 * 128 * 128 * 128 * 128 * 128 * 128 * 128 * 128 * Pow2(1);
  }

  /** Seven value bits an octet, least significant group first, bit 7 set on all but the last. */
  function VarintBytes(v: nat): (r: seq<Byte>)
    ensures |r| > 0
  {
    if v < 128 then [v] else [128 + v % 128] + VarintBytes(v / 128)
  }

  /** How many octets a varint reader that gives up after `room` value bits consumes from `bs`;
      |bs| + 1 says the octets ran out first. */
  function VarintLength(bs: seq<Byte>, room: int): (n: nat)
    ensures n <= |bs| + 1
    ensures room > 0 ==> n > 0
  {
    if room <= 0 then 0
    else if bs == [] then 1
    else if bs[0] < 128 then 1
    else 1 + VarintLength(bs[1..], room - 7)
  }

  /** The value the octets a reader consumes denote, kept to `room` bits as the shifts do. */
  function VarintValue(bs: seq<Byte>, room: int): (v: nat)
    requires VarintLength(bs, room) <= |bs|
    ensures room >= 0 ==> v < Pow2(room)
  {
    assert room > 7 ==> Pow2(room) == 128 * Pow2(room - 7) && Pow2(room - 7) > 0 by {
      if room > 7 { Pow2Seven(room - 7); }
    }
    if room <= 0 then 0
    else if room <= 7 || bs[0] < 128 then Wrap(bs[0] % 128, Pow2(room))
    else bs[0] % 128 + 128 * VarintValue(bs[1..], room - 7)
  }

  /** A value that needs a second octet leaves enough room for it. */
  lemma VarintStep(v: nat, room: nat)
    requires 128 <= v < Pow2(room)
    ensures 7 < room && v / 128 < Pow2(room - 7)
  {
    Pow2Seven(0);
    if room <= 7 {
      Pow2Monotone(room, 7);
    } else {
      Pow2Seven(room - 7);
    }
  }

  lemma {:induction false} VarintDecodes(v: nat, rest: seq<Byte>, room: nat)
    requires 0 < room && v < Pow2(room)
    ensures VarintLength(VarintBytes(v) + rest, room) == |VarintBytes(v)|
    ensures VarintValue(VarintBytes(v) + rest, room) == v
    ensures 7 * (|VarintBytes(v)| - 1) < room
    decreases v
  {
    if v >= 128 {
      VarintStep(v, room);
      VarintDecodes(v / 128, rest, room - 7);
      assert VarintBytes(v) + rest == [128 + v % 128] + (VarintBytes(v / 128) + rest);
    }
  }

  lemma {:induction false} Pow2Monotone(a: nat, b: nat)
    requires a <= b
    ensures Pow2(a) <= Pow2(b)
    decreases b
  {
    if a < b { Pow2Monotone(a, b - 1); }
  }

  /** readUint32 undoes writeUint32 whatever follows, and both use 1 to 5 octets. */
  lemma Varint32RoundTrip(v: nat, rest: seq<Byte>)
    requires v < TWO_32
    ensures 1 <= |VarintBytes(v)| <= 5
    ensures VarintLength(VarintBytes(v) + rest, 32) == |VarintBytes(v)|
    ensures VarintValue(VarintBytes(v) + rest, 32) == v
  {
    Pow2Words();
    VarintDecodes(v, rest, 32);
  }

  /** readUint64 undoes writeUint64 whatever follows, and both use 1 to 10 octets. */
  lemma Varint64RoundTrip(v: nat, rest: seq<Byte>)
    requires v < TWO_64
    ensures 1 <= |VarintBytes(v)| <= 10
    ensures VarintLength(VarintBytes(v) + rest, 64) == |VarintBytes(v)|
    ensures VarintValue(VarintBytes(v) + rest, 64) == v
  {
    Pow2Words();
    VarintDecodes(v, rest, 64);
  }

  /** Seven bits an octet, the least significant first. */
  function GroupSum(bs: seq<Byte>): nat {
    if bs == [] then 0 else bs[0] % 128 + 128 * GroupSum(bs[1..])
  }

  /** LEB128, and the shortest: bit 7 is set on all octets but the last, the low seven bits add up to the value,
      and the last octet is not 0 unless it is the only one. */
  ghost predicate IsVarint(bs: seq<Byte>, v: nat) {
    && bs != [] && (forall i :: 0 <= i < |bs| - 1 ==> bs[i] >= 128) && bs[|bs| - 1] < 128
    && GroupSum(bs) == v && (|bs| > 1 ==> bs[|bs| - 1] > 0)
  }

  lemma {:induction false} VarintBytesAre(v: nat)
    ensures IsVarint(VarintBytes(v), v)
    decreases v
  {
    if v >= 128 {
      VarintBytesAre(v / 128);
      var bs, rest := VarintBytes(v), VarintBytes(v / 128);
      assert bs[1..] == rest && bs[|bs| - 1] == rest[|rest| - 1];
      forall i | 0 <= i < |bs| - 1 ensures bs[i] >= 128 { if i > 0 { assert bs[i] == rest[i - 1]; } }
      assert |rest| == 1 ==> rest[0] > 0 by { if |rest| == 1 { assert GroupSum(rest[1..]) == 0; } }
    } else {
      assert [v][1..] == [];
    }
  }

  /** The octet-producing loop shared by writeUint32 and writeUint64. */
  method EncodeVarint(value: nat) returns (tmp: seq<Byte>)
    ensures tmp == VarintBytes(value)
  {
    tmp := [];
    var v := value;
    while v >= 0x80
      invariant tmp + VarintBytes(v) == VarintBytes(value)
    {
      assert tmp + VarintBytes(v) == (tmp + [128 + v % 128]) + VarintBytes(v / 128);
      tmp := tmp + [v % 0x80 + 0x80];
      v := v / 128;
    }
    tmp := tmp + [v];
  }
}
