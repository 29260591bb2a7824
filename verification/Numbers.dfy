/** Machine-word ranges, minimum and maximum, and small remainders. */
module Numbers {
  const TWO_16 := 0x1_0000
  const TWO_31 := 0x8000_0000
  const TWO_32 := 0x1_0000_0000
  const TWO_63 := 0x8000_0000_0000_0000
  const TWO_64 := 0x1_0000_0000_0000_0000

  /** The conversion of an unsigned number to a signed 32-bit one. */
  function ToInt32(n: nat): (r: int)
    ensures -0x8000_0000 <= r < 0x8000_0000 && (n < 0x1_0000_0000 ==> r == n || r == n - 0x1_0000_0000)
    ensures n < TWO_31 ==> r == n
  {
    var k := n % TWO_32;
    if k < TWO_31 then k else k - TWO_32
  }

  /** And to a signed 64-bit one. */
  function ToInt64(n: nat): (r: int)
    ensures -0x8000_0000_0000_0000 <= r < 0x8000_0000_0000_0000
    ensures n < TWO_64 ==> r == n || r == n - TWO_64
    ensures n < TWO_63 ==> r == n
    ensures TWO_63 <= n < TWO_64 ==> r < 0
  {
    var k := n % TWO_64;
    if k < TWO_63 then k else k - TWO_64
  }

  function Max(a: nat, b: nat): nat { if a < b then b else a }

  function Min(a: nat, b: nat): nat { if a < b then a else b }

  lemma SmallModulus(x: int, m: nat)
    requires m > 0
    ensures 0 <= x < m ==> x % m == x
  {}

  lemma QuotientUnique(q: nat, r: nat, k: nat, t: nat, base: nat)
    requires r < base && t < base && q * base + r == k * base + t
    ensures q == k && r == t
  {
    if q < k {
      MulLe(q + 1, k, base);
    } else if q > k {
      MulLe(k + 1, q, base);
    }
  }

  lemma MulLe(a: nat, b: nat, m: nat)
    requires a <= b
    ensures a * m <= b * m
  {}
}
