/** Numbers in decimal: printing, and what the standard library's conversions read. */
module Decimals {
  import opened Wrappers

  function Digit(d: nat): char
    requires d < 10
  {
    (48 + d) as char
  }

  predicate IsDigit(c: char) { '0' <= c <= '9' }

  function PrintNat(n: nat): (s: string)
    ensures |s| > 0 && forall i :: 0 <= i < |s| ==> IsDigit(s[i])
  {
    if n < 10 then [Digit(n)] else PrintNat(n / 10) + [Digit(n % 10)]
  }

  /** The value of a text of digits; other characters count as zeros. */
  function ParseNat(s: string): nat {
    if s == [] then 0
    else ParseNat(s[..|s| - 1]) * 10 + (if IsDigit(s[|s| - 1]) then s[|s| - 1] as int - 48 else 0)
  }

  lemma {:induction false} PrintParseNat(n: nat)
    ensures ParseNat(PrintNat(n)) == n
  {
    if n >= 10 {
      PrintParseNat(n / 10);
      assert PrintNat(n)[..|PrintNat(n)| - 1] == PrintNat(n / 10);
    } else {
      assert [Digit(n)][..0] == [];
    }
  }

  /** Printing a number takes no more digits than any text that denotes it. */
  lemma {:induction false} PrintIsShortest(s: string)
    requires s != []
    ensures |PrintNat(ParseNat(s))| <= |s|
    decreases |s|
  {
    var init := s[..|s| - 1];
    if init != [] {
      PrintIsShortest(init);
    } else {
      assert ParseNat(init) == 0;
    }
    var d := if IsDigit(s[|s| - 1]) then s[|s| - 1] as int - 48 else 0;
    assert ParseNat(s) == ParseNat(init) * 10 + d && 0 <= d < 10;
    assert ParseNat(s) / 10 == ParseNat(init);
  }

  /** operator<< and std::to_string. */
  function PrintInt(n: int): (s: string)
    ensures |s| > 0 && forall i :: 0 <= i < |s| ==> IsDigit(s[i]) || s[i] == '-'
  {
    if n < 0 then ['-'] + PrintNat(-n) else PrintNat(n)
  }

  predicate IsSpace(c: char) { c == ' ' || 9 <= c as int <= 13 }

  function SkipSpaces(s: string): string {
    if s != [] && IsSpace(s[0]) then SkipSpaces(s[1..]) else s
  }

  function LeadingDigits(s: string): (d: string)
    ensures |d| <= |s| && forall i :: 0 <= i < |d| ==> IsDigit(d[i])
  {
    if s != [] && IsDigit(s[0]) then [s[0]] + LeadingDigits(s[1..]) else []
  }

  lemma {:induction false} AllLeadingDigits(s: string)
    requires forall i :: 0 <= i < |s| ==> IsDigit(s[i])
    ensures LeadingDigits(s) == s
    decreases |s|
  {
    if s != [] { AllLeadingDigits(s[1..]); }
  }

  /** What std::stoi and std::stoll read: spaces, a sign, digits; anything behind them is ignored. */
  function ParseInt(s: string): Option<int> {
    var t := SkipSpaces(s);
    var signed := t != [] && (t[0] == '-' || t[0] == '+');
    var ds := LeadingDigits(if signed then t[1..] else t);
    if ds == [] then None
    else Some(if signed && t[0] == '-' then 0 - ParseNat(ds) else ParseNat(ds))
  }

  lemma ParseIntDigits(s: string)
    requires s != [] && forall i :: 0 <= i < |s| ==> IsDigit(s[i])
    ensures ParseInt(s) == Some(ParseNat(s))
  {
    assert IsDigit(s[0]) && !IsSpace(s[0]);
    AllLeadingDigits(s);
    hide LeadingDigits, ParseNat;
  }

  lemma PrintParseInt(n: int)
    ensures ParseInt(PrintInt(n)) == Some(n)
  {
    var s := PrintInt(n);
    if n < 0 {
      assert !IsSpace(s[0]) && s[1..] == PrintNat(-n);
      AllLeadingDigits(PrintNat(-n));
      PrintParseNat(-n);
    } else {
      ParseIntDigits(s);
      PrintParseNat(n);
    }
  }

  lemma {:induction false} ParseNatGrows(digits: string, k: nat)
    requires k <= |digits|
    ensures ParseNat(digits[..k]) <= ParseNat(digits)
    decreases |digits| - k
  {
    if k < |digits| {
      ParseNatGrows(digits, k + 1);
      assert digits[..k + 1][..k] == digits[..k];
    } else {
      assert digits[..k] == digits;
    }
  }

  lemma {:induction false} SkipsSpaces(spaces: string, rest: string)
    requires (forall c :: c in spaces ==> IsSpace(c)) && (rest == [] || !IsSpace(rest[0]))
    ensures SkipSpaces(spaces + rest) == rest
    decreases |spaces|
  {
    if spaces == [] {
      assert spaces + rest == rest;
    } else {
      assert spaces[0] in spaces && (spaces + rest)[1..] == spaces[1..] + rest;
      SkipsSpaces(spaces[1..], rest);
    }
  }

  lemma {:induction false} TakesDigits(digits: string, rest: string)
    requires (forall c :: c in digits ==> IsDigit(c)) && (rest == [] || !IsDigit(rest[0]))
    ensures LeadingDigits(digits + rest) == digits
    decreases |digits|
  {
    if digits == [] {
      assert digits + rest == rest;
    } else {
      assert digits[0] in digits && (digits + rest)[1..] == digits[1..] + rest;
      TakesDigits(digits[1..], rest);
    }
  }

  /** White space, a sign or none, digits, and whatever follows them: the number is that of the digits, and there
      is none when there are no digits. */
  lemma ParseIntReads(spaces: string, sign: string, digits: string, rest: string)
    requires (forall c :: c in spaces ==> c in " \t\n\r" || c as int == 11 || c as int == 12)
    requires sign == "" || sign == "+" || sign == "-"
    requires (forall c :: c in digits ==> '0' <= c <= '9') && (rest == [] || !('0' <= rest[0] <= '9'))
    requires digits == "" && rest != [] ==> !IsSpace(rest[0]) && (sign == "" ==> rest[0] != '+' && rest[0] != '-')
    ensures ParseInt(spaces + sign + digits + rest) ==
      if digits == "" then None else Some(if sign == "-" then 0 - ParseNat(digits) else ParseNat(digits))
  {
    var t := sign + (digits + rest);
    assert spaces + sign + digits + rest == spaces + t;
    assert digits != "" ==> digits[0] in digits && (digits + rest)[0] == digits[0];
    assert digits == "" ==> digits + rest == rest;
    SkipsSpaces(spaces, t);
    assert sign == "" ==> t == digits + rest;
    assert sign != "" ==> t[1..] == digits + rest && t[0] == sign[0];
    TakesDigits(digits, rest);
    hide SkipSpaces, LeadingDigits, ParseNat;
  }
}
