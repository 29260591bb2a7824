/** The hand-written base64url codec of the token layer (section 5 of RFC 4648, without padding). */
module Base64Url {
  import opened Bytes
  import opened Numbers
  import opened Wrappers

  /** Six-bit values, as integers. */
  type Sextet = int

  /** A std::string holds bytes: characters below 256. */
  predicate Octets(t: string) {
    forall i :: 0 <= i < |t| ==> t[i] as int < 256
  }

  function ToBytes(t: string): (r: seq<Byte>)
    ensures |r| == |t| && forall i :: 0 <= i < |t| ==> r[i] == t[i] as int % 256
  {
    seq(|t|, i requires 0 <= i < |t| => t[i] as int % 256)
  }

  function FromBytes(bs: seq<Byte>): (r: string)
    ensures |r| == |bs| && forall i :: 0 <= i < |bs| ==> r[i] as int == bs[i]
  {
    seq(|bs|, i requires 0 <= i < |bs| => bs[i] as char)
  }

  lemma TextBytesText(t: string)
    requires Octets(t)
    ensures FromBytes(ToBytes(t)) == t
  {
    forall i | 0 <= i < |t| ensures FromBytes(ToBytes(t))[i] == t[i] { SmallModulus(t[i] as int, 256); }
  }

  // ---------- alphabet ----------

  /** base64_chars[v] */
  function Char(v: Sextet): char {
    if 0 <= v < 26 then (65 + v) as char
    else if 26 <= v < 52 then (71 + v) as char
    else if 52 <= v < 62 then (v - 4) as char
    else if v == 62 then '+' else '/'
  }

  /** is_base64 */
  predicate IsBase64(c: char) {
    'A' <= c <= 'Z' || 'a' <= c <= 'z' || '0' <= c <= '9' || c == '+' || c == '/'
  }

  /** base64_chars.find(c) */
  function Value(c: char): (v: Sextet)
    requires IsBase64(c)
    ensures 0 <= v < 64 && Char(v) == c
  {
    if 'A' <= c <= 'Z' then c as int - 65
    else if 'a' <= c <= 'z' then c as int - 71
    else if '0' <= c <= '9' then c as int + 4
    else if c == '+' then 62 else 63
  }

  lemma CharValue(v: Sextet)
    requires 0 <= v < 64
    ensures IsBase64(Char(v)) && Value(Char(v)) == v
  {}

  // ---------- the transformation ----------

  /** The six-bit groups of the data, the last one filled up with zero bits. */
  function Sextets(data: seq<Byte>): seq<Sextet> {
    if |data| == 0 then []
    else if |data| == 1 then [data[0] / 4, data[0] % 4 * 16]
    else if |data| == 2 then [data[0] / 4, data[0] % 4 * 16 + data[1] / 16, data[1] % 16 * 4]
    else Group(data[0], data[1], data[2]) + Sextets(data[3..])
  }

  function Group(a: Byte, b: Byte, c: Byte): (r: seq<Sextet>)
    ensures |r| == 4
  {
    [a / 4, a % 4 * 16 + b / 16, b % 16 * 4 + c / 64, c % 64]
  }

  /** What three and four value bytes decode to; 255 stands for the missing ones. */
  function Ungroup(a: Sextet, b: Sextet, c: Sextet, d: Sextet): (r: seq<Byte>)
    ensures |r| == 3
  {
    [(a * 4 + b % 64 / 16) % 256, (b % 16 * 16 + c % 64 / 4) % 256, (c % 4 * 64 + d) % 256]
  }

  /** base64_chars.find('\0') is npos, cut to an unsigned char. */
  const MISSING := 255

  function FromSextets(sx: seq<Sextet>): seq<Byte> {
    if |sx| >= 4 then Ungroup(sx[0], sx[1], sx[2], sx[3]) + FromSextets(sx[4..])
    else if |sx| == 0 then []
    else
      Ungroup(sx[0], if |sx| > 1 then sx[1] else MISSING, if |sx| > 2 then sx[2] else MISSING, MISSING)[..|sx| - 1]
  }

  lemma Digits4(q: nat, r: nat)
    requires r < 4
    ensures (q * 4 + r) / 4 == q && (q * 4 + r) % 4 == r
  {}

  lemma Digits16(q: nat, r: nat)
    requires r < 16
    ensures (q * 16 + r) / 16 == q && (q * 16 + r) % 16 == r
  {}

  lemma FirstByte(a: Byte, x: nat)
    requires x < 16
    ensures (a / 4 * 4 + (a % 4 * 16 + x) % 64 / 16) % 256 == a
  {
    Digits16(a % 4, x);
    SmallModulus(a % 4 * 16 + x, 64);
    SmallModulus(a, 256);
  }

  lemma SecondByte(y: nat, b: Byte, z: nat)
    requires y < 4 && z < 4
    ensures ((y * 16 + b / 16) % 16 * 16 + (b % 16 * 4 + z) % 64 / 4) % 256 == b
  {
    Digits16(y, b / 16);
    Digits4(b % 16, z);
    SmallModulus(b % 16 * 4 + z, 64);
    SmallModulus(b, 256);
  }

  lemma ThirdByte(x: nat, c: Byte)
    requires x < 16
    ensures ((x * 4 + c / 64) % 4 * 64 + c % 64) % 256 == c
  {
    Digits4(x, c / 64);
    SmallModulus(c, 256);
  }

  lemma GroupRoundTrip(a: Byte, b: Byte, c: Byte)
    ensures var g := Group(a, b, c); Ungroup(g[0], g[1], g[2], g[3]) == [a, b, c]
  {
    FirstByte(a, b / 16);
    SecondByte(a % 4, b, c / 64);
    ThirdByte(b % 16, c);
  }

  lemma LastTwo(a: Byte, b: Byte)
    ensures Ungroup(a / 4, a % 4 * 16 + b / 16, b % 16 * 4, MISSING)[..2] == [a, b]
  {
    FirstByte(a, b / 16);
    SecondByte(a % 4, b, 0);
  }

  lemma LastOne(a: Byte)
    ensures Ungroup(a / 4, a % 4 * 16, MISSING, MISSING)[..1] == [a]
  {
    FirstByte(a, 0);
  }

  lemma {:induction false} SextetsRoundTrip(data: seq<Byte>)
    ensures FromSextets(Sextets(data)) == data
    decreases |data|
  {
    hide Ungroup;
    if |data| >= 3 {
      var g := Group(data[0], data[1], data[2]);
      GroupRoundTrip(data[0], data[1], data[2]);
      SextetsRoundTrip(data[3..]);
      hide Group;
      assert (g + Sextets(data[3..]))[4..] == Sextets(data[3..]);
      assert data == [data[0], data[1], data[2]] + data[3..];
    } else if |data| == 2 {
      LastTwo(data[0], data[1]);
    } else if |data| == 1 {
      LastOne(data[0]);
    }
  }

  function Spell(sx: seq<Sextet>): (t: string)
    ensures |t| == |sx| && forall i :: 0 <= i < |sx| ==> t[i] == Char(sx[i])
  {
    seq(|sx|, i requires 0 <= i < |sx| => Char(sx[i]))
  }

  /** The longest prefix of alphabet characters, as values: where the decoder's loop stops. */
  function Values(t: string): seq<Sextet> {
    if t == [] || !IsBase64(t[0]) then [] else [Value(t[0])] + Values(t[1..])
  }

  ghost predicate SixBit(sx: seq<Sextet>) {
    forall i :: 0 <= i < |sx| ==> 0 <= sx[i] < 64
  }

  lemma {:induction false} SextetsSixBit(data: seq<Byte>)
    ensures SixBit(Sextets(data))
    decreases |data|
  {
    if |data| >= 3 { SextetsSixBit(data[3..]); }
  }

  lemma {:induction false} ValuesOfSpelling(sx: seq<Sextet>, rest: string)
    requires SixBit(sx)
    requires rest == [] || !IsBase64(rest[0])
    ensures Values(Spell(sx) + rest) == sx
    decreases |sx|
  {
    if sx == [] {
      assert Spell(sx) + rest == rest;
    } else {
      CharValue(sx[0]);
      ValuesOfSpelling(sx[1..], rest);
      assert (Spell(sx) + rest)[1..] == Spell(sx[1..]) + rest;
    }
  }

  function UrlChar(c: char): char { if c == '+' then '-' else if c == '/' then '_' else c }
  function StdChar(c: char): char { if c == '-' then '+' else if c == '_' then '/' else c }

  function Map(t: string, f: char -> char): (r: string)
    ensures |r| == |t| && forall i :: 0 <= i < |t| ==> r[i] == f(t[i])
  {
    seq(|t|, i requires 0 <= i < |t| => f(t[i]))
  }

  /** base64UrlEncode: spell the groups in the URL alphabet; the padding is erased again. */
  function Encode(data: seq<Byte>): string {
    Map(Spell(Sextets(data)), UrlChar)
  }

  /** base64UrlDecode: back to the standard alphabet, then the values up to the first foreign character. */
  function Decode(t: string): seq<Byte> {
    FromSextets(Values(Map(t, StdChar)))
  }

  predicate UrlSafe(c: char) {
    'A' <= c <= 'Z' || 'a' <= c <= 'z' || '0' <= c <= '9' || c == '-' || c == '_'
  }

  /** Decoding undoes encoding for every byte string, and the encoding is of URL-safe characters only,
      so it contains no dot. */
  lemma RoundTrip(data: seq<Byte>)
    ensures Decode(Encode(data)) == data
    ensures forall c :: c in Encode(data) ==> UrlSafe(c)
    ensures '.' !in Encode(data)
  {
    var s := Spell(Sextets(data));
    SextetsSixBit(data);
    forall i | 0 <= i < |s| ensures IsBase64(s[i]) { CharValue(Sextets(data)[i]); }
    assert Map(Encode(data), StdChar) == s;
    assert s + [] == s;
    ValuesOfSpelling(Sextets(data), []);
    SextetsRoundTrip(data);
  }

  lemma EncodeInjective(a: seq<Byte>, b: seq<Byte>)
    requires Encode(a) == Encode(b)
    ensures a == b
  {
    RoundTrip(a);
    RoundTrip(b);
  }

  // ---------- bit by bit ----------

  const UPPER := "ABCDEFGHIJKLM"
  const UPPER2 := "NOPQRSTUVWXYZ"
  const LOWER := "abcdefghijklm"
  const LOWER2 := "nopqrstuvwxyz"
  const DIGITS := "0123456789"

  /** Tables 1 and 2 of RFC 4648. */
  const STANDARD := UPPER + UPPER2 + LOWER + LOWER2 + DIGITS + "+/"
  const URL_SAFE := UPPER + UPPER2 + LOWER + LOWER2 + DIGITS + "-_"

  lemma Tables()
    ensures forall i :: 0 <= i < 13 ==> UPPER[i] as int == 65 + i && UPPER2[i] as int == 78 + i
    ensures forall i :: 0 <= i < 13 ==> LOWER[i] as int == 97 + i && LOWER2[i] as int == 110 + i
    ensures forall i :: 0 <= i < 10 ==> DIGITS[i] as int == 48 + i
  {}

  lemma Alphabets(v: Sextet)
    requires 0 <= v < 64
    ensures |STANDARD| == |URL_SAFE| == 64
    ensures Char(v) == STANDARD[v] && UrlChar(Char(v)) == URL_SAFE[v]
  {
    Tables();
    assert |UPPER| == |UPPER2| == |LOWER| == |LOWER2| == 13 && |DIGITS| == 10;
  }

  /** Bit i of a string of octets, the highest of the first one being bit 0; zeros follow the end. */
  function Bit(data: seq<Byte>, i: nat): nat {
    if i / 8 >= |data| then 0
    else
      var b, r := data[i / 8], i % 8;
      (if r == 0 then b / 128 else if r == 1 then b / 64 else if r == 2 then b / 32 else if r == 3 then b / 16
       else if r == 4 then b / 8 else if r == 5 then b / 4 else if r == 6 then b / 2 else b) % 2
  }

  /** The number that the six bits from i on denote. */
  function SixBits(data: seq<Byte>, i: nat): nat {
    32 * Bit(data, i) + 16 * Bit(data, i + 1) + 8 * Bit(data, i + 2) + 4 * Bit(data, i + 3) + 2 * Bit(data, i + 4)
        + Bit(data, i + 5)
  }

  /** Halving, bit by bit. */
  lemma Halves(a: Byte)
    ensures a / 128 == a / 128 % 2 && a / 64 == 2 * (a / 128) + a / 64 % 2 && a / 32 == 2 * (a / 64) + a / 32 % 2
    ensures a / 16 == 2 * (a / 32) + a / 16 % 2 && a / 8 == 2 * (a / 16) + a / 8 % 2
    ensures a / 4 == 2 * (a / 8) + a / 4 % 2 && a / 2 == 2 * (a / 4) + a / 2 % 2 && a == 2 * (a / 2) + a % 2
  {}

  lemma UpperSix(a: Byte)
    ensures a / 4 == 32 * (a / 128 % 2) + 16 * (a / 64 % 2) + 8 * (a / 32 % 2) + 4 * (a / 16 % 2) + 2 * (a / 8 % 2)
      + a / 4 % 2
  {
    Halves(a);
  }

  lemma UpperFour(a: Byte)
    ensures a / 16 == 8 * (a / 128 % 2) + 4 * (a / 64 % 2) + 2 * (a / 32 % 2) + a / 16 % 2
    ensures a / 64 == 2 * (a / 128 % 2) + a / 64 % 2
  {
    Halves(a);
  }

  lemma LowerFour(a: Byte)
    ensures a % 16 == 8 * (a / 8 % 2) + 4 * (a / 4 % 2) + 2 * (a / 2 % 2) + a % 2
    ensures a % 4 == 2 * (a / 2 % 2) + a % 2
  {
    Halves(a);
    assert a % 16 == a - 16 * (a / 16) && a % 4 == a - 4 * (a / 4);
  }

  lemma LowerSix(a: Byte)
    ensures a % 64 == 32 * (a / 32 % 2) + 16 * (a / 16 % 2) + a % 16
  {
    Halves(a);
    assert a % 64 == a - 64 * (a / 64) && a % 16 == a - 16 * (a / 16);
  }

  lemma LaterBits(data: seq<Byte>, i: nat)
    requires |data| >= 3 && i >= 24
    ensures SixBits(data, i) == SixBits(data[3..], i - 24)
  {
    forall j: nat | j >= 24 ensures Bit(data, j) == Bit(data[3..], j - 24) {
      assert j / 8 == (j - 24) / 8 + 3 && j % 8 == (j - 24) % 8;
    }
  }

  /** The bits of one octet. */
  lemma BitsOf(data: seq<Byte>, n: nat)
    requires n < |data|
    ensures var a := data[n];
      && Bit(data, 8 * n) == a / 128 % 2 && Bit(data, 8 * n + 1) == a / 64 % 2 && Bit(data, 8 * n + 2) == a / 32 % 2
      && Bit(data, 8 * n + 3) == a / 16 % 2 && Bit(data, 8 * n + 4) == a / 8 % 2 && Bit(data, 8 * n + 5) == a / 4 % 2
      && Bit(data, 8 * n + 6) == a / 2 % 2 && Bit(data, 8 * n + 7) == a % 2
  {}

  lemma NoBits(data: seq<Byte>, i: nat)
    requires 8 * |data| <= i
    ensures Bit(data, i) == 0
  {}

  lemma FirstSix(data: seq<Byte>)
    requires data != []
    ensures SixBits(data, 0) == data[0] / 4
    ensures SixBits(data, 6) == data[0] % 4 * 16 + (if |data| > 1 then data[1] / 16 else 0)
    ensures |data| > 1 ==> SixBits(data, 12) == data[1] % 16 * 4 + (if |data| > 2 then data[2] / 64 else 0)
    ensures |data| > 2 ==> SixBits(data, 18) == data[2] % 64
  {
    BitsOf(data, 0);
    UpperSix(data[0]);
    LowerFour(data[0]);
    if |data| > 1 {
      BitsOf(data, 1);
      UpperFour(data[1]);
      LowerFour(data[1]);
    }
    if |data| > 2 {
      BitsOf(data, 2);
      UpperFour(data[2]);
      LowerFour(data[2]);
      LowerSix(data[2]);
    }
    if |data| == 1 { NoBits(data, 8); NoBits(data, 9); NoBits(data, 10); NoBits(data, 11); }
    if |data| == 2 { NoBits(data, 16); NoBits(data, 17); }
    hide Bit;
  }

  lemma FirstSextets(data: seq<Byte>, k: nat)
    requires k < |Sextets(data)| && (|data| < 3 || k < 4)
    ensures data != [] && k < 4
    ensures Sextets(data)[k] == if k == 0 then data[0] / 4
      else if k == 1 then data[0] % 4 * 16 + (if |data| > 1 then data[1] / 16 else 0)
      else if k == 2 then (if |data| > 1 then data[1] % 16 * 4 + (if |data| > 2 then data[2] / 64 else 0) else 0)
      else if |data| > 2 then data[2] % 64 else 0
    ensures (k >= 2 ==> |data| > 1) && (k == 3 ==> |data| > 2)
  {}

  lemma {:induction false} SextetsAreBits(data: seq<Byte>, k: nat)
    requires k < |Sextets(data)|
    ensures Sextets(data)[k] == SixBits(data, 6 * k)
    decreases |data|
  {
    hide SixBits;
    if |data| >= 3 && k >= 4 {
      SextetsAreBits(data[3..], k - 4);
      LaterBits(data, 6 * k);
    } else {
      FirstSextets(data, k);
      hide Sextets;
      FirstSix(data);
    }
  }

  lemma {:induction false} SextetsCount(data: seq<Byte>)
    ensures |Sextets(data)| == (4 * |data| + 2) / 3
    decreases |data|
  {
    if |data| >= 3 { SextetsCount(data[3..]); }
  }

  /** Sections 4 and 5 of RFC 4648: character k of the encoding is the one that stands for the six bits from 6k on,
      and there are as many as the data needs, without padding. */
  lemma EncodesBits(data: seq<Byte>)
    ensures |Encode(data)| == (4 * |data| + 2) / 3
    ensures forall k :: 0 <= k < |Encode(data)| ==>
      SixBits(data, 6 * k) < 64 && Encode(data)[k] == URL_SAFE[SixBits(data, 6 * k)]
  {
    SextetsCount(data);
    SextetsSixBit(data);
    forall k | 0 <= k < |Encode(data)|
      ensures SixBits(data, 6 * k) < 64 && Encode(data)[k] == URL_SAFE[SixBits(data, 6 * k)]
    {
      SextetsAreBits(data, k);
      Alphabets(Sextets(data)[k]);
    }
  }

  /** Bit i of a string of six-bit values. */
  function ValueBit(vs: seq<Sextet>, i: nat): int
    requires i / 6 < |vs|
  {
    var b, r := vs[i / 6], i % 6;
    (if r == 0 then b / 32 else if r == 1 then b / 16 else if r == 2 then b / 8 else if r == 3 then b / 4
     else if r == 4 then b / 2 else b) % 2
  }

  /** The number that the eight bits from i on denote. */
  function EightBits(vs: seq<Sextet>, i: nat): int
    requires i + 8 <= 6 * |vs|
  {
    128 * ValueBit(vs, i) + 64 * ValueBit(vs, i + 1) + 32 * ValueBit(vs, i + 2) + 16 * ValueBit(vs, i + 3)
        + 8 * ValueBit(vs, i + 4) + 4 * ValueBit(vs, i + 5) + 2 * ValueBit(vs, i + 6) + ValueBit(vs, i + 7)
  }

  /** Halving a six-bit value, bit by bit. */
  lemma SixHalves(b: Sextet)
    requires 0 <= b < 64
    ensures b / 32 == b / 32 % 2 && b / 16 == 2 * (b / 32) + b / 16 % 2 && b / 8 == 2 * (b / 16) + b / 8 % 2
    ensures b / 4 == 2 * (b / 8) + b / 4 % 2 && b / 2 == 2 * (b / 4) + b / 2 % 2 && b == 2 * (b / 2) + b % 2
    ensures b % 64 == b && b % 16 == b - 16 * (b / 16) && b % 4 == b - 4 * (b / 4)
  {}

  lemma ValueBitsOf(vs: seq<Sextet>, n: nat)
    requires n < |vs|
    ensures var b := vs[n];
      && ValueBit(vs, 6 * n) == b / 32 % 2 && ValueBit(vs, 6 * n + 1) == b / 16 % 2
          && ValueBit(vs, 6 * n + 2) == b / 8 % 2
      && ValueBit(vs, 6 * n + 3) == b / 4 % 2 && ValueBit(vs, 6 * n + 4) == b / 2 % 2
          && ValueBit(vs, 6 * n + 5) == b % 2
  {}

  lemma FirstEights(vs: seq<Sextet>)
    requires SixBit(vs) && |vs| >= 2
    ensures EightBits(vs, 0) == vs[0] * 4 + vs[1] / 16
    ensures |vs| >= 3 ==> EightBits(vs, 8) == vs[1] % 16 * 16 + vs[2] / 4
    ensures |vs| >= 4 ==> EightBits(vs, 16) == vs[2] % 4 * 64 + vs[3]
  {
    ValueBitsOf(vs, 0);
    ValueBitsOf(vs, 1);
    SixHalves(vs[0]);
    SixHalves(vs[1]);
    if |vs| >= 3 { ValueBitsOf(vs, 2); SixHalves(vs[2]); }
    if |vs| >= 4 { ValueBitsOf(vs, 3); SixHalves(vs[3]); }
    hide ValueBit;
  }

  lemma UngroupAt(a: Sextet, b: Sextet, c: Sextet, d: Sextet)
    requires 0 <= a < 64 && 0 <= b < 64 && 0 <= c < 256 && 0 <= d < 256
    ensures Ungroup(a, b, c, d)[0] == a * 4 + b / 16
    ensures c < 64 ==> Ungroup(a, b, c, d)[1] == b % 16 * 16 + c / 4
    ensures c < 64 && d < 64 ==> Ungroup(a, b, c, d)[2] == c % 4 * 64 + d
  {
    SmallModulus(b, 64);
    SmallModulus(c, 64);
    SmallModulus(a * 4 + b / 16, 256);
    SmallModulus(b % 16 * 16 + c / 4, 256);
    SmallModulus(c % 4 * 64 + d, 256);
  }

  lemma FirstUngrouped(vs: seq<Sextet>, k: nat)
    requires k < |FromSextets(vs)| && (|vs| < 4 || k < 3)
    ensures k < 3 && k + 2 <= |vs|
    ensures FromSextets(vs)[k] ==
      Ungroup(vs[0], vs[1], if |vs| > 2 then vs[2] else MISSING, if |vs| > 3 then vs[3] else MISSING)[k]
  {
    hide Ungroup;
  }

  /** The first octets decoded, of up to four values. */
  lemma FirstOctets(vs: seq<Sextet>, k: nat)
    requires SixBit(vs) && k < |FromSextets(vs)| && (|vs| < 4 || k < 3)
    ensures k < 3 && k + 2 <= |vs|
    ensures FromSextets(vs)[k] == if k == 0 then vs[0] * 4 + vs[1] / 16
      else if k == 1 then vs[1] % 16 * 16 + vs[2] / 4 else vs[2] % 4 * 64 + vs[3]
  {
    FirstUngrouped(vs, k);
    hide FromSextets, Ungroup;
    UngroupAt(vs[0], vs[1], if |vs| > 2 then vs[2] else MISSING, if |vs| > 3 then vs[3] else MISSING);
  }

  lemma LaterEights(vs: seq<Sextet>, i: nat)
    requires |vs| >= 4 && i >= 24 && i + 8 <= 6 * |vs|
    ensures EightBits(vs, i) == EightBits(vs[4..], i - 24)
  {
    forall j: nat | 24 <= j < 6 * |vs| ensures ValueBit(vs, j) == ValueBit(vs[4..], j - 24) {
      assert j / 6 == (j - 24) / 6 + 4 && j % 6 == (j - 24) % 6;
    }
  }

  lemma {:induction false} OctetsCount(vs: seq<Sextet>)
    ensures |FromSextets(vs)| == |vs| * 6 / 8
    decreases |vs|
  {
    if |vs| >= 4 { OctetsCount(vs[4..]); }
  }

  lemma {:induction false} OctetsAreBits(vs: seq<Sextet>, k: nat)
    requires SixBit(vs) && k < |FromSextets(vs)|
    ensures 8 * k + 8 <= 6 * |vs| && FromSextets(vs)[k] == EightBits(vs, 8 * k)
    decreases |vs|
  {
    OctetsCount(vs);
    hide EightBits;
    if |vs| >= 4 && k >= 3 {
      hide Ungroup;
      OctetsAreBits(vs[4..], k - 3);
      LaterEights(vs, 8 * k);
    } else {
      FirstOctets(vs, k);
      hide FromSextets;
      FirstEights(vs);
    }
  }

  lemma {:induction false} ValuesRead(t: string)
    ensures |Values(t)| <= |t| && SixBit(Values(t))
    ensures forall j :: 0 <= j < |Values(t)| ==> IsBase64(t[j]) && Char(Values(t)[j]) == t[j]
    ensures |Values(t)| < |t| ==> !IsBase64(t[|Values(t)|])
    decreases |t|
  {
    if t != [] && IsBase64(t[0]) { ValuesRead(t[1..]); }
  }

  lemma Standardised(c: char)
    ensures IsBase64(StdChar(c)) <==> c in STANDARD || c in URL_SAFE
    ensures forall v :: 0 <= v < 64 && Char(v) == StdChar(c) ==> c == STANDARD[v] || c == URL_SAFE[v]
  {
    forall v | 0 <= v < 64 ensures Char(v) == STANDARD[v] && UrlChar(Char(v)) == URL_SAFE[v] { Alphabets(v); }
    if IsBase64(StdChar(c)) {
      var v := Value(StdChar(c));
      assert Char(v) == StdChar(c);
    }
    if c in STANDARD {
      var v :| 0 <= v < |STANDARD| && STANDARD[v] == c;
      CharValue(v);
    }
    if c in URL_SAFE {
      var v :| 0 <= v < |URL_SAFE| && URL_SAFE[v] == c;
      CharValue(v);
    }
    assert |STANDARD| == |URL_SAFE| == 64 by { Alphabets(0); }
  }

  /** The decoder takes characters of either alphabet up to the first that is in none, and gives as many whole
      octets as their bits make up; octet k is the number that the eight bits from 8k on denote. */
  lemma DecodesBits(t: string) returns (vs: seq<Sextet>)
    ensures |vs| <= |t| && SixBit(vs) && |STANDARD| == |URL_SAFE| == 64
    ensures forall j :: 0 <= j < |vs| ==> t[j] == STANDARD[vs[j]] || t[j] == URL_SAFE[vs[j]]
    ensures |vs| < |t| ==> t[|vs|] !in STANDARD && t[|vs|] !in URL_SAFE
    ensures |Decode(t)| == |vs| * 6 / 8
    ensures forall k :: 0 <= k < |Decode(t)| ==> Decode(t)[k] == EightBits(vs, 8 * k)
  {
    Alphabets(0);
    vs := Values(Map(t, StdChar));
    ValuesRead(Map(t, StdChar));
    OctetsCount(vs);
    forall j | 0 <= j < |vs| ensures t[j] == STANDARD[vs[j]] || t[j] == URL_SAFE[vs[j]] { Standardised(t[j]); }
    if |vs| < |t| { Standardised(t[|vs|]); }
    forall k | 0 <= k < |Decode(t)| ensures Decode(t)[k] == EightBits(vs, 8 * k) { OctetsAreBits(vs, k); }
  }

  // ---------- the loops ----------

  function Padding(n: nat): (t: string)
    ensures forall c :: c in t ==> c == '='
  {
    if n % 3 == 0 then "" else if n % 3 == 1 then "==" else "="
  }

  lemma {:induction false} SextetsAppend(done: seq<Byte>, more: seq<Byte>)
    requires |done| % 3 == 0
    ensures Sextets(done + more) == Sextets(done) + Sextets(more)
    decreases |done|
  {
    if done == [] {
      assert done + more == more;
    } else {
      SextetsAppend(done[3..], more);
      assert (done + more)[3..] == done[3..] + more;
    }
  }

  lemma SpellAppend(a: seq<Sextet>, b: seq<Sextet>)
    ensures Spell(a + b) == Spell(a) + Spell(b)
  {}

  lemma EncodeThree(done: seq<Byte>, a3: seq<Byte>)
    requires Threes(|done|) && |a3| == 3
    ensures Spell(Sextets(done + a3)) == Spell(Sextets(done)) + Spell(Group(a3[0], a3[1], a3[2]))
  {
    SextetsAppend(done, a3);
    assert a3[3..] == [];
    SpellAppend(Sextets(done), Sextets(a3));
    assert Group(a3[0], a3[1], a3[2]) + [] == Group(a3[0], a3[1], a3[2]);
  }

  lemma EncodeRest(done: seq<Byte>, a3: seq<Byte>)
    requires Threes(|done|) && 0 < |a3| < 3
    ensures Spell(Sextets(done + a3)) == Spell(Sextets(done))
        + Spell(Group(a3[0], if |a3| > 1 then a3[1] else 0, 0)[..|a3| + 1])
  {
    SextetsAppend(done, a3);
    SpellAppend(Sextets(done), Sextets(a3));
    assert Sextets(a3) == Group(a3[0], if |a3| > 1 then a3[1] else 0, 0)[..|a3| + 1];
  }

  predicate Threes(n: nat) { n % 3 == 0 }

  lemma ThreeMore(n: nat)
    requires Threes(n)
    ensures Threes(n + 3)
  {}

  lemma PaddingIs(n: nat, rest: nat)
    requires Threes(n) && rest < 3
    ensures Padding(n + rest) == if rest == 0 then "" else if rest == 1 then "==" else "="
  {}

  lemma BytesGrow(data: seq<Byte>, q: nat, p: nat)
    requires q <= p < |data|
    ensures data[q..p] + [data[p]] == data[q..p + 1] && data[..q] + data[q..p] == data[..p]
    ensures data[..q] + data[q..p + 1] == data[..p + 1]
  {}

  /** The encoding loop: three bytes at a time, then what is left over, zero-filled and padded. */
  method EncodeStandard(data: seq<Byte>) returns (ret: string)
    ensures ret == Spell(Sextets(data)) + Padding(|data|)
  {
    ret := "";
    var a3: seq<Byte> := [];
    var p := 0;
    assert Spell(Sextets([])) == "" && data[..0] == [];
    ghost var q: nat := 0;
    assert Threes(0) && data[0..0] == [];
    hide Sextets, Spell, Group, Threes;
    while p < |data|
      invariant p == q + |a3| && |a3| < 3 && Threes(q)
      invariant 0 <= p <= |data| && a3 == data[q..p]
      invariant ret == Spell(Sextets(data[..q]))
    {
      BytesGrow(data, q, p);
      a3 := a3 + [data[p]];
      p := p + 1;
      if |a3| == 3 {
        EncodeThree(data[..q], a3);
        ret := ret + Spell(Group(a3[0], a3[1], a3[2]));
        a3 := [];
        ThreeMore(q);
        q := p;
      }
    }
    PaddingIs(q, |a3|);
    assert data[..q] + a3 == data;
    if |a3| > 0 {
      EncodeRest(data[..q], a3);
      ret := ret + Spell(Group(a3[0], if |a3| > 1 then a3[1] else 0, 0)[..|a3| + 1])
          + (if |a3| == 1 then "==" else "=");
    } else {
      assert data[..q] == data && ret + "" == ret;
    }
  }

  /** std::string::find of one character. */
  function FindChar(t: string, c: char): (p: Option<nat>)
    ensures p.Some? ==> p.value < |t| && t[p.value] == c && forall i :: 0 <= i < p.value ==> t[i] != c
    ensures p.None? ==> c !in t
  {
    if t == [] then None
    else if t[0] == c then Some(0)
    else match FindChar(t[1..], c) case None => None case Some(q) => Some(q + 1)
  }

  function Swap(c: char, from: char, to: char): char { if c == from then to else c }

  /** `while ((pos = s.find(from)) != npos) s.replace(pos, 1, to)` */
  method ReplaceAll(t: string, from: char, to: char) returns (r: string)
    requires from != to
    ensures r == Map(t, c => Swap(c, from, to))
  {
    r := t;
    ghost var k: nat := 0;
    while FindChar(r, from).Some?
      invariant k <= |t| == |r|
      invariant forall i :: 0 <= i < k ==> r[i] == Swap(t[i], from, to)
      invariant forall i :: k <= i < |t| ==> r[i] == t[i]
      decreases |t| - k
    {
      var p := FindChar(r, from).value;
      assert p >= k;
      r := r[p := to];
      k := p + 1;
    }
    assert forall i :: k <= i < |t| ==> t[i] != from by { assert forall i :: k <= i < |t| ==> r[i] in r; }
  }

  /** `while ((pos = s.find('=')) != npos) s.erase(pos, 1)`, on a text that has them only at its end. */
  method EraseAll(t: string, c: char) returns (r: string)
    ensures r == Without(t, c)
  {
    r := t;
    while FindChar(r, c).Some?
      invariant Without(r, c) == Without(t, c)
      decreases |r|
    {
      var p := FindChar(r, c).value;
      WithoutSplit(r, c, p);
      r := r[..p] + r[p + 1..];
    }
    WithoutNone(r, c);
  }

  function Without(t: string, c: char): (r: string)
    ensures c !in r && forall x :: x in r ==> x in t
  {
    if t == [] then [] else (if t[0] == c then [] else [t[0]]) + Without(t[1..], c)
  }

  lemma {:induction false} WithoutAppend(a: string, b: string, c: char)
    ensures Without(a + b, c) == Without(a, c) + Without(b, c)
    decreases |a|
  {
    if a == [] {
      assert a + b == b;
    } else {
      WithoutAppend(a[1..], b, c);
      assert (a + b)[1..] == a[1..] + b && (a + b)[0] == a[0];
      hide Without;
      var h: string := if a[0] == c then [] else [a[0]];
      assert h + (Without(a[1..], c) + Without(b, c)) == h + Without(a[1..], c) + Without(b, c);
    }
  }

  lemma WithoutSplit(t: string, c: char, p: nat)
    requires p < |t| && t[p] == c
    ensures Without(t[..p] + t[p + 1..], c) == Without(t, c)
  {
    assert t == t[..p] + t[p..] && t[p..][1..] == t[p + 1..];
    WithoutAppend(t[..p], t[p..], c);
    WithoutAppend(t[..p], t[p + 1..], c);
  }

  lemma {:induction false} WithoutNone(t: string, c: char)
    requires c !in t
    ensures Without(t, c) == t
    decreases |t|
  {
    if t != [] { WithoutNone(t[1..], c); }
  }

  lemma {:induction false} WithoutAll(t: string, c: char)
    requires forall x :: x in t ==> x == c
    ensures Without(t, c) == []
    decreases |t|
  {
    if t != [] {
      assert t[0] in t && forall x :: x in t[1..] ==> x in t;
      WithoutAll(t[1..], c);
    }
  }

  method Base64UrlEncode(data: seq<Byte>) returns (ret: string)
    ensures ret == Encode(data)
  {
    ret := EncodeStandard(data);
    ghost var s, pad := Spell(Sextets(data)), Padding(|data|);
    SextetsSixBit(data);
    forall i | 0 <= i < |s| ensures IsBase64(s[i]) { CharValue(Sextets(data)[i]); }
    ret := ReplaceAll(ret, '+', '-');
    ret := ReplaceAll(ret, '/', '_');
    assert ret == Encode(data) + pad;
    ret := EraseAll(ret, '=');
    WithoutAppend(Encode(data), pad, '=');
    WithoutNone(Encode(data), '=');
    WithoutAll(pad, '=');
  }

  // ---------- decoding loop ----------

  /** Where the decoding loop stops reading. */
  lemma {:induction false} ValuesStep(t: string, k: nat)
    requires k <= |t| && forall i :: 0 <= i < k ==> IsBase64(t[i])
    ensures k <= |Values(t)| && (k < |t| && !IsBase64(t[k]) ==> |Values(t)| == k) && (k == |t| ==> |Values(t)| == k)
    ensures forall i :: 0 <= i < k ==> Values(t)[i] == Value(t[i])
    decreases |t|
  {
    if k > 0 {
      assert t[1..][k - 1..] == t[k..];
      ValuesStep(t[1..], k - 1);
    }
  }

  lemma {:induction false} FromSextetsAppend(done: seq<Sextet>, more: seq<Sextet>)
    requires |done| % 4 == 0
    ensures FromSextets(done + more) == FromSextets(done) + FromSextets(more)
    decreases |done|
  {
    if done == [] {
      assert done + more == more;
    } else {
      hide Ungroup;
      FromSextetsAppend(done[4..], more);
      assert (done + more)[4..] == done[4..] + more;
      var head := Ungroup(done[0], done[1], done[2], done[3]);
      assert head + (FromSextets(done[4..]) + FromSextets(more)) == head + FromSextets(done[4..]) + FromSextets(more);
    }
  }

  lemma DecodeFour(done: seq<Sextet>, a4: seq<Sextet>)
    requires Fours(|done|) && |a4| == 4
    ensures FromSextets(done + a4) == FromSextets(done) + Ungroup(a4[0], a4[1], a4[2], a4[3])
  {
    FromSextetsAppend(done, a4);
    hide Ungroup;
    assert a4[4..] == [];
  }

  /** Back to the standard alphabet, padded to a multiple of four. */
  method Standardise(encoded: string) returns (input: string)
    ensures Values(input) == Values(Map(encoded, StdChar))
  {
    input := ReplaceAll(encoded, '-', '+');
    input := ReplaceAll(input, '_', '/');
    assert input == Map(encoded, StdChar);
    ghost var std := input;
    var padding := |input| % 4;
    if padding > 0 { input := input + "===="[..4 - padding]; }
    ValuesWithPadding(std, input);
  }

  lemma SliceGrows(vs: seq<Sextet>, q: nat, p: nat)
    requires q <= p < |vs|
    ensures vs[q..p] + [vs[p]] == vs[q..p + 1] && vs[..q] + vs[q..p] == vs[..p] && vs[..q] + vs[q..p + 1] == vs[..p + 1]
  {}

  predicate Fours(n: nat) { n % 4 == 0 }

  lemma FourMore(n: nat)
    requires Fours(n)
    ensures Fours(n + 4)
  {}

  /** What is left over when the loop stops: nothing, or fewer than four characters. */
  method DecodeRemainder(ret: seq<Byte>, a4: seq<Sextet>, ghost done: seq<Sextet>) returns (r: seq<Byte>)
    requires Fours(|done|) && |a4| < 4 && ret == FromSextets(done)
    ensures r == FromSextets(done + a4)
  {
    r := ret;
    hide FromSextets, Ungroup;
    if |a4| > 0 {
      var c3 := Ungroup(a4[0], if |a4| > 1 then a4[1] else MISSING, if |a4| > 2 then a4[2] else MISSING, MISSING);
      DecodeRest(done, a4);
      r := r + c3[..|a4| - 1];
    } else {
      assert done + a4 == done;
    }
  }

  /** The decoding loop: four characters at a time, up to the first foreign one, then what is left over. */
  method DecodeLoop(input: string) returns (ret: seq<Byte>)
    ensures ret == FromSextets(Values(input))
  {
    ghost var vs := Values(input);
    ret := [];
    var a4: seq<Sextet> := [];
    var p: nat := 0;
    ghost var q: nat := 0;
    assert vs[..0] == [] && vs[0..0] == [] && FromSextets([]) == [] && Fours(0);
    hide Values, FromSextets, Ungroup, Value, IsBase64, Fours;
    while p < |input| && input[p] != '=' && IsBase64(input[p])
      invariant p == q + |a4| && |a4| < 4 && Fours(q)
      invariant p <= |input| && p <= |vs| && a4 == vs[q..p]
      invariant forall i :: 0 <= i < p ==> IsBase64(input[i])
      invariant ret == FromSextets(vs[..q])
    {
      NextValue(input, p);
      SliceGrows(vs, q, p);
      a4 := a4 + [Value(input[p])];
      p := p + 1;
      if |a4| == 4 {
        DecodeFour(vs[..q], a4);
        ret := ret + Ungroup(a4[0], a4[1], a4[2], a4[3]);
        a4 := [];
        FourMore(q);
        q := p;
      }
    }
    StopsAt(input, p);
    assert vs[..q] + a4 == vs;
    ret := DecodeRemainder(ret, a4, vs[..q]);
  }

  method Base64UrlDecode(encoded: string) returns (ret: seq<Byte>)
    ensures ret == Decode(encoded)
  {
    var input := Standardise(encoded);
    ret := DecodeLoop(input);
  }

  lemma NextValue(t: string, p: nat)
    requires p < |t| && forall i :: 0 <= i <= p ==> IsBase64(t[i])
    ensures p < |Values(t)| && Values(t)[p] == Value(t[p])
  {
    ValuesStep(t, p + 1);
  }

  lemma StopsAt(t: string, k: nat)
    requires k <= |t| && (forall i :: 0 <= i < k ==> IsBase64(t[i]))
    requires k < |t| ==> t[k] == '=' || !IsBase64(t[k])
    ensures |Values(t)| == k
  {
    ValuesStep(t, k);
  }

  lemma DecodeRest(done: seq<Sextet>, a4: seq<Sextet>)
    requires |done| % 4 == 0 && 0 < |a4| < 4
    ensures FromSextets(done + a4) == FromSextets(done)
      + Ungroup(a4[0], if |a4| > 1 then a4[1] else MISSING, if |a4| > 2 then a4[2] else MISSING, MISSING)[..|a4| - 1]
  {
    FromSextetsAppend(done, a4);
  }

  lemma {:induction false} ValuesWithPadding(t: string, padded: string)
    requires |t| <= |padded| && padded[..|t|] == t && forall i :: |t| <= i < |padded| ==> padded[i] == '='
    ensures Values(padded) == Values(t)
    decreases |t|
  {
    if t != [] {
      assert padded[0] == t[0];
      assert padded[1..][..|t| - 1] == t[1..];
      ValuesWithPadding(t[1..], padded[1..]);
    }
  }
}
