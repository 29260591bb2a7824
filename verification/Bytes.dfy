/** Octets, and the little-endian digit sequence of an unsigned word. */
module Bytes {
  import opened Numbers

  type Byte = b: nat | b < 256

  function Reverse<T>(s: seq<T>): (r: seq<T>)
    ensures |r| == |s|
  {
    if s == [] then [] else Reverse(s[1..]) + [s[0]]
  }

  lemma {:induction false} ReverseAt<T>(s: seq<T>, k: nat)
    requires k < |s|
    ensures Reverse(s)[k] == s[|s| - 1 - k]
  {
    if k < |s| - 1 { ReverseAt(s[1..], k); }
  }

  lemma ReverseTwice<T>(s: seq<T>)
    ensures Reverse(Reverse(s)) == s
  {
    forall k | 0 <= k < |s| ensures Reverse(Reverse(s))[k] == s[k] {
      ReverseAt(Reverse(s), k);
      ReverseAt(s, |s| - 1 - k);
    }
  }

  /** The number of values a `w`-octet word has. */
  function Pow256(w: nat): (r: nat)
    ensures r > 0
  {
    if w == 0 then 1 else 256 * Pow256(w - 1)
  }

  lemma Pow256Widths()
    ensures Pow256(1) == 256 && Pow256(2) == TWO_16 && Pow256(4) == TWO_32 && Pow256(8) == TWO_64
  {
    assert Pow256(4) == 256 * 256 * Pow256(2);
    assert Pow256(8) == 256 * 256 * Pow256(6);
    assert Pow256(6) == 256 * 256 * Pow256(4);
  }

  /** The `w` octets of `u`, least significant first. */
  function LittleEndian(u: nat, w: nat): (r: seq<Byte>)
    ensures |r| == w
    decreases w
  {
    if w == 0 then [] else [u % 256] + LittleEndian(u / 256, w - 1)
  }

  /** The word whose octets, least significant first, are `bs`. */
  function FromLittleEndian(bs: seq<Byte>): (u: nat)
    ensures u < Pow256(|bs|)
  {
    if bs == [] then 0 else bs[0] + 256 * FromLittleEndian(bs[1..])
  }

  lemma {:induction false} LittleEndianRoundTrip(u: nat, w: nat)
    requires u < Pow256(w)
    ensures FromLittleEndian(LittleEndian(u, w)) == u
    decreases w
  {
    if w > 0 {
      LittleEndianRoundTrip(u / 256, w - 1);
      assert LittleEndian(u, w)[1..] == LittleEndian(u / 256, w - 1);
    }
  }

  lemma {:induction false} LittleEndianInverse(bs: seq<Byte>)
    ensures LittleEndian(FromLittleEndian(bs), |bs|) == bs
  {
    if bs != [] {
      LittleEndianInverse(bs[1..]);
      assert FromLittleEndian(bs) / 256 == FromLittleEndian(bs[1..]);
    }
  }

  lemma DividesTwice(u: nat, a: nat, b: nat)
    requires a > 0 && b > 0
    ensures a * b > 0 && u / a / b == u / (a * b)
  {
    var q, r := u / a, u % a;
    var k, t := q / b, q % b;
    Positive(a, b);
    TwoDigits(u, q, r, k, t, a, b);
    DivMod(u, a * b);
    QuotientUnique(u / (a * b), u % (a * b), k, t * a + r, a * b);
  }

  lemma Positive(a: nat, b: nat)
    requires a > 0 && b > 0
    ensures a * b > 0
  {}

  lemma DivMod(u: nat, m: nat)
    requires m > 0
    ensures u == u / m * m + u % m && u % m < m
  {}

  lemma TwoDigits(u: nat, q: nat, r: nat, k: nat, t: nat, a: nat, b: nat)
    requires u == q * a + r && r < a && q == k * b + t && t < b
    ensures t * a + r < a * b && u == k * (a * b) + (t * a + r)
  {
    Below(t, r, a, b);
    Expanded(k, b, t, a);
  }

  lemma Below(t: nat, r: nat, a: nat, b: nat)
    requires r < a && t < b
    ensures t * a + r < a * b
  {
    MulLe(t + 1, b, a);
    assert (t + 1) * a == t * a + a;
  }

  lemma Expanded(k: nat, b: nat, t: nat, a: nat)
    ensures (k * b + t) * a == k * (a * b) + t * a
  {
    assert (k * b + t) * a == k * b * a + t * a;
    assert k * b * a == k * (a * b);
  }

  /** Octet k of a word, least significant first, is its k-th digit to the base 256. */
  lemma {:induction false} LittleEndianAt(u: nat, w: nat, k: nat)
    requires k < w
    ensures LittleEndian(u, w)[k] == u / Pow256(k) % 256
    decreases k
  {
    if k > 0 {
      LittleEndianAt(u / 256, w - 1, k - 1);
      DividesTwice(u, 256, Pow256(k - 1));
    }
  }
}
