/** The claims of a token: printing them as JSON, and the find-based parser that reads them back. */
module Claims {
  import opened Decimals
  import opened Wrappers

  const INT64_MIN := -0x8000_0000_0000_0000
  const INT64_MAX := 0x7FFF_FFFF_FFFF_FFFF

  predicate Int64(n: int) { INT64_MIN <= n <= INT64_MAX }

  datatype JwtClaims = JwtClaims(userId: int, username: string, nickname: string, roles: seq<string>,
                                 jti: string, iat: int, exp: int, issuer: string)

  /** JWTClaims() */
  const NoClaims := JwtClaims(0, "", "", [], "", 0, 0, "")

  // ---------- std::string::find ----------

  /** The first position from `from` on where `pat` stands in `s`. */
  function Find(s: string, pat: string, from: nat): (p: Option<nat>)
    ensures p.Some? ==> from <= p.value && p.value + |pat| <= |s| && s[p.value..p.value + |pat|] == pat
    ensures p.Some? ==> forall i :: from <= i < p.value ==> !StandsAt(s, pat, i)
    ensures p.None? ==> forall i :: from <= i ==> !StandsAt(s, pat, i)
    decreases if from <= |s| then |s| - from + 1 else 0
  {
    if from + |pat| > |s| then None
    else if s[from..from + |pat|] == pat then Some(from)
    else Find(s, pat, from + 1)
  }

  predicate StandsAt(s: string, pat: string, i: nat) {
    i + |pat| <= |s| && s[i..i + |pat|] == pat
  }

  lemma FindIs(s: string, pat: string, from: nat, p: nat)
    requires from <= p && StandsAt(s, pat, p) && forall i :: from <= i < p ==> !StandsAt(s, pat, i)
    ensures Find(s, pat, from) == Some(p)
  {
    var f := Find(s, pat, from);
    assert f.Some? ==> StandsAt(s, pat, f.value);
  }

  // ---------- integers ----------

  /** std::stoll; None is the exception for no digits or a value out of range. */
  function Stoll(s: string): (r: Option<int>)
    ensures r.Some? ==> Int64(r.value)
  {
    var v := ParseInt(s);
    if v.Some? && Int64(v.value) then v else None
  }

  /** It reads digits behind white space and a sign, and throws without digits or when the value is no 64-bit
      integer. */
  lemma StollReads(spaces: string, sign: string, digits: string, rest: string)
    requires (forall c :: c in spaces ==> c in " \t\n\r" || c as int == 11 || c as int == 12)
    requires sign == "" || sign == "+" || sign == "-"
    requires (forall c :: c in digits ==> '0' <= c <= '9') && (rest == [] || !('0' <= rest[0] <= '9'))
    requires digits == "" && rest != [] ==> !IsSpace(rest[0]) && (sign == "" ==> rest[0] != '+' && rest[0] != '-')
    ensures var v := if sign == "-" then 0 - ParseNat(digits) else ParseNat(digits);
      Stoll(spaces + sign + digits + rest) ==
        if digits == "" || v < -9223372036854775808 || v > 9223372036854775807 then None else Some(v)
  {
    ParseIntReads(spaces, sign, digits, rest);
    hide ParseInt, ParseNat;
  }

  lemma StollPrinted(n: int)
    requires Int64(n)
    ensures Stoll(PrintInt(n)) == Some(n)
  {
    PrintParseInt(n);
  }

  // ---------- printing ----------

  function PrintRoles(roles: seq<string>): string {
    if roles == [] then ""
    else "\"" + roles[0] + "\"" + (if |roles| > 1 then "," else "") + PrintRoles(roles[1..])
  }

  function RolesField(roles: seq<string>): string {
    if roles == [] then "" else ",\"roles\":[" + PrintRoles(roles) + "]"
  }

  /** What the stream holds after each field of serializeClaims. */
  function AfterSub(c: JwtClaims): string { "{" + "\"sub\":\"" + PrintInt(c.userId) + "\"" }
  function AfterUsername(c: JwtClaims): string { AfterSub(c) + "," + "\"username\":\"" + c.username + "\"" }
  function AfterNickname(c: JwtClaims): string { AfterUsername(c) + "," + "\"nickname\":\"" + c.nickname + "\"" }
  function AfterJti(c: JwtClaims): string { AfterNickname(c) + "," + "\"jti\":\"" + c.jti + "\"" }
  function AfterIat(c: JwtClaims): string { AfterJti(c) + "," + "\"iat\":" + PrintInt(c.iat) + "," }
  function AfterExp(c: JwtClaims): string { AfterIat(c) + "\"exp\":" + PrintInt(c.exp) + "," }
  function AfterIss(c: JwtClaims): string { AfterExp(c) + "\"iss\":\"" + c.issuer + "\"" }

  function Serialize(c: JwtClaims): string {
    AfterIss(c) + RolesField(c.roles) + "}"
  }

  // ---------- parsing ----------

  /** `pos = find(pat, from); pos += |pat|; end = find(close, pos)`: the text between, and `end`. */
  function Field(s: string, pat: string, from: nat, close: char): (r: Option<(string, nat)>)
    ensures r.Some? ==> close !in r.value.0 && r.value.1 < |s|
  {
    match Find(s, pat, from)
    case None => None
    case Some(p) =>
      match Find(s, [close], p + |pat|)
      case None => None
      case Some(e) =>
        assert forall i :: p + |pat| <= i < e ==> s[i] != close by {
          forall i | p + |pat| <= i < e ensures s[i] != close {
            assert !StandsAt(s, [close], i);
          }
        }
        Some((s[p + |pat|..e], e))
  }

  /** The loop over the text between the brackets; two characters are skipped behind each closing quote. */
  function ParseRoles(s: string, start: nat): (roles: seq<string>)
    ensures forall r :: r in roles ==> '\"' !in r && forall ch :: ch in r ==> ch in s
    decreases if start < |s| then |s| - start else 0
  {
    if start >= |s| then []
    else match Find(s, "\"", start)
      case None => []
      case Some(q) =>
        match Find(s, "\"", q + 1)
        case None => []
        case Some(e) =>
          assert forall i :: q + 1 <= i < e ==> s[i] != '\"' by {
            forall i | q + 1 <= i < e ensures s[i] != '\"' { assert !StandsAt(s, "\"", i); }
          }
          [s[q + 1..e]] + ParseRoles(s, e + 2)
  }

  /** parseClaims: the result, and what became of the claims handed in. */
  function Parse(json: string, c0: JwtClaims): (bool, JwtClaims) {
    match Field(json, "\"sub\":\"", 0, '\"')
    case None => (false, c0)
    case Some((sub, e1)) =>
    match Stoll(sub)
    case None => (false, c0)
    case Some(userId) =>
    var c1 := c0.(userId := userId);
    match Field(json, "\"username\":\"", e1, '\"')
    case None => (false, c1)
    case Some((username, e2)) =>
    var c2 := c1.(username := username);
    match Field(json, "\"nickname\":\"", e2, '\"')
    case None => (false, c2)
    case Some((nickname, e3)) =>
    var c3 := c2.(nickname := nickname);
    match Field(json, "\"jti\":\"", e3, '\"')
    case None => (false, c3)
    case Some((jti, e4)) =>
    var c4 := c3.(jti := jti);
    match Field(json, "\"iat\":", e4, ',')
    case None => (false, c4)
    case Some((iat, e5)) =>
    match Stoll(iat)
    case None => (false, c4)
    case Some(iatValue) =>
    ParseRest(json, e5, c4.(iat := iatValue))
  }

  /** From `exp` on: its number may end at a comma or at a brace. */
  function ParseRest(json: string, e5: nat, c5: JwtClaims): (bool, JwtClaims) {
    match Find(json, "\"exp\":", e5)
    case None => (false, c5)
    case Some(p) =>
    var comma := Find(json, ",", p + 6);
    var end := if comma.Some? then comma else Find(json, "}", p + 6);
    match end
    case None => (false, c5)
    case Some(e6) =>
    match Stoll(json[p + 6..e6])
    case None => (false, c5)
    case Some(exp) => (true, ParseOptional(json, p, e6, c5.(exp := exp)))
  }

  /** The issuer and the roles may be missing; `end` stays where the last search left it. A failed search
      for a closing character leaves it at npos, from where nothing more is found. */
  function ParseOptional(json: string, p: nat, e6: nat, c6: JwtClaims): JwtClaims {
    var iss := Find(json, "\"iss\":\"", e6);
    match iss
    case None => WithRoles(json, e6, c6)
    case Some(q) =>
      match Find(json, "\"", q + 7)
      case None => c6
      case Some(e7) => WithRoles(json, e7, c6.(issuer := json[q + 7..e7]))
  }

  function WithRoles(json: string, from: nat, c: JwtClaims): JwtClaims {
    match Field(json, "\"roles\":[", from, ']')
    case None => c
    case Some((text, _)) => c.(roles := c.roles + ParseRoles(text, 0))
  }

  // ---------- reading back ----------

  lemma StandsNot(s: string, pat: string, i: nat)
    requires pat != [] && i < |s|
    requires s[i] != pat[0] || (|pat| > 1 && i + 1 < |s| && s[i + 1] != pat[1])
    ensures !StandsAt(s, pat, i)
  {
    assert i + |pat| <= |s| ==> s[i..i + |pat|][0] == s[i];
    assert i + |pat| <= |s| && |pat| > 1 ==> s[i..i + |pat|][1] == s[i + 1];
  }

  /** A field whose name stands at `p`: the gap before it holds no other place where the name could
      stand, and the text does not contain the closing character. */
  lemma FieldReads(s: string, p: nat, pat: string, text: string, close: char, from: nat)
    requires p + |pat| + |text| < |s| && s[p..p + |pat|] == pat
    requires s[p + |pat|..p + |pat| + |text|] == text && s[p + |pat| + |text|] == close
    requires from <= p && 2 <= |pat|
    requires forall i :: from <= i < p ==> s[i] != pat[0] || s[i + 1] != pat[1]
    requires close !in text
    ensures Find(s, pat, from) == Some(p)
    ensures Find(s, [close], p + |pat|) == Some(p + |pat| + |text|)
    ensures Field(s, pat, from, close) == Some((text, p + |pat| + |text|))
  {
    hide Find, StandsAt;
    forall i | from <= i < p ensures !StandsAt(s, pat, i) {
      StandsNot(s, pat, i);
    }
    FindIs(s, pat, from, p);
    var q, e := p + |pat|, p + |pat| + |text|;
    assert s[e..e + 1] == [close];
    forall i | q <= i < e ensures !StandsAt(s, [close], i) {
      assert s[i] == s[q..e][i - q] == text[i - q];
      StandsNot(s, [close], i);
    }
    FindIs(s, [close], q, e);
  }

  lemma PrefixParts(s: string, pre: string, pat: string, text: string, close: char)
    requires pre + pat + text + [close] <= s
    ensures var p := |pre|; var q := p + |pat|; var e := q + |text|;
      e < |s| && s[..p] == pre && s[p..q] == pat && s[q..e] == text && s[e] == close
  {
    var w := pre + pat + text + [close];
    assert s[..|w|] == w;
    assert w[|pre| + |pat| + |text|] == close;
    assert s[..|pre|] == w[..|pre|];
    assert s[|pre|..|pre| + |pat|] == w[|pre|..|pre| + |pat|];
    assert s[|pre| + |pat|..|pre| + |pat| + |text|] == w[|pre| + |pat|..|pre| + |pat| + |text|];
  }

  /** Where the text of a field of a printed claim set ends, when at most the closing quote and the comma
      of the field before lie between the start of the search and the field's name. */
  lemma Locates(s: string, pre: string, pat: string, text: string, close: char, from: nat)
    requires pre + pat + text + [close] <= s && close !in text
    requires 2 <= |pat| && pat[0] == '\"' && pat[1] != ','
    requires from <= |pre| && (pre[from..] == "\"," || pre[from..] == "," || pre[from..] == "{")
    ensures Field(s, pat, from, close) == Some((text, |pre| + |pat| + |text|))
    ensures Find(s, pat, from) == Some(|pre|)
    ensures Find(s, [close], |pre| + |pat|) == Some(|pre| + |pat| + |text|)
    ensures s[|pre| + |pat|..|pre| + |pat| + |text|] == text
  {
    hide Field, Find, StandsAt;
    PrefixParts(s, pre, pat, text, close);
    GapIsClear(s, pre, pat, from);
    FieldReads(s, |pre|, pat, text, close, from);
  }

  lemma GapIsClear(s: string, pre: string, pat: string, from: nat)
    requires |pre| + |pat| <= |s| && s[..|pre|] == pre && s[|pre|..|pre| + |pat|] == pat
    requires 2 <= |pat| && pat[0] == '\"' && pat[1] != ','
    requires from <= |pre| && (pre[from..] == "\"," || pre[from..] == "," || pre[from..] == "{")
    ensures forall i :: from <= i < |pre| ==> s[i] != pat[0] || s[i + 1] != pat[1]
  {
    var p := |pre|;
    var gap := pre[from..];
    forall i | from <= i < p ensures s[i] != pat[0] || s[i + 1] != pat[1] {
      assert s[i] == s[..p][i] == gap[i - from];
      if i + 1 < p {
        assert s[i + 1] == s[..p][i + 1] == gap[i + 1 - from];
      }
    }
  }

  predicate QuoteFree(t: string) { '\"' !in t }

  predicate RolesClean(roles: seq<string>) {
    forall r :: r in roles ==> '\"' !in r && ']' !in r
  }

  /** The claims whose printed form reads back. */
  predicate Clean(c: JwtClaims) {
    QuoteFree(c.username) && QuoteFree(c.nickname) && QuoteFree(c.jti) && QuoteFree(c.issuer) && RolesClean(c.roles)
  }

  // ---------- roles ----------

  lemma {:induction false} RolesText(roles: seq<string>)
    requires RolesClean(roles)
    ensures ']' !in PrintRoles(roles)
    decreases |roles|
  {
    if roles != [] {
      assert roles[0] in roles;
      assert forall r :: r in roles[1..] ==> r in roles;
      RolesText(roles[1..]);
    }
  }

  function Quoted(r: string): string {
    "\"" + r + "\""
  }

  lemma PrintRolesUnfolds(roles: seq<string>)
    requires roles != []
    ensures PrintRoles(roles) == Quoted(roles[0]) + (if |roles| > 1 then "," else "") + PrintRoles(roles[1..])
    ensures |roles| == 1 ==> PrintRoles(roles) == Quoted(roles[0])
  {
    if |roles| == 1 {
      assert PrintRoles(roles[1..]) == "";
      assert Quoted(roles[0]) + "" + "" == Quoted(roles[0]);
    }
  }

  lemma Suffix<T>(s: seq<T>, start: nat, a: seq<T>, b: seq<T>)
    requires start <= |s| && s[start..] == a + b
    ensures start + |a| <= |s| && s[start..start + |a|] == a && s[start + |a|..] == b
  {
    assert s[start..start + |a|] == s[start..][..|a|];
    assert s[start + |a|..] == s[start..][|a|..];
  }

  lemma SliceOfSlice<T>(s: seq<T>, a: nat, b: nat, i: nat, j: nat)
    requires a <= b <= |s| && i <= j <= b - a
    ensures s[a..b][i..j] == s[a + i..a + j]
  {
    var t := s[a..b];
    forall k | 0 <= k < j - i ensures t[i..j][k] == s[a + i..a + j][k] {
      assert t[i..j][k] == t[i + k] == s[a + (i + k)];
    }
  }

  /** A quoted text at `start`: both quotes are found, and the text between them. */
  lemma QuotedRead(s: string, start: nat, r: string)
    requires start + |r| + 2 <= |s| && s[start..start + |r| + 2] == Quoted(r) && '\"' !in r
    ensures Find(s, "\"", start) == Some(start)
    ensures Find(s, "\"", start + 1) == Some(start + 1 + |r|)
    ensures s[start + 1..start + 1 + |r|] == r
  {
    var e := start + 1 + |r|;
    var w := s[start..start + |r| + 2];
    assert w[0] == '\"' && w[|r| + 1] == '\"' && w[1..|r| + 1] == r;
    SliceOfSlice(s, start, start + |r| + 2, 1, |r| + 1);
    assert s[start] == w[0] && s[e] == w[|r| + 1];
    assert s[start..start + 1] == "\"" && s[e..e + 1] == "\"";
    FindIs(s, "\"", start, start);
    forall i | start + 1 <= i < e ensures !StandsAt(s, "\"", i) {
      assert s[i] == w[i - start] == r[i - start - 1];
      StandsNot(s, "\"", i);
    }
    FindIs(s, "\"", start + 1, e);
  }

  lemma RolesUnfold(s: string, start: nat, r: string)
    requires Find(s, "\"", start) == Some(start) && Find(s, "\"", start + 1) == Some(start + 1 + |r|)
    requires start + 1 + |r| <= |s| && s[start + 1..start + 1 + |r|] == r
    ensures ParseRoles(s, start) == [r] + ParseRoles(s, start + |r| + 3)
  {
    hide Find;
  }

  lemma RolesEnd(s: string, start: nat)
    requires start >= |s|
    ensures ParseRoles(s, start) == []
  {}

  lemma NothingPrinted()
    ensures PrintRoles([]) == ""
  {}

  /** One quoted role and whatever stands behind it. */
  lemma OneRole(s: string, start: nat, r: string, tail: string)
    requires start <= |s| && s[start..] == Quoted(r) + tail && '\"' !in r
    ensures |s| == start + |r| + 2 + |tail|
    ensures ParseRoles(s, start) == [r] + ParseRoles(s, start + |r| + 3)
  {
    hide Find, ParseRoles;
    assert |Quoted(r)| == |r| + 2;
    hide Quoted;
    Suffix(s, start, Quoted(r), tail);
    QuotedRead(s, start, r);
    RolesUnfold(s, start, r);
  }

  /** The printed list, split behind its first role, and behind the comma that follows it. */
  lemma PrintedSplits(roles: seq<string>) returns (tail: string)
    requires roles != []
    ensures PrintRoles(roles) == Quoted(roles[0]) + tail
    ensures |roles| == 1 ==> tail == ""
    ensures |roles| > 1 ==> tail == "," + PrintRoles(roles[1..])
  {
    hide Quoted, PrintRoles;
    PrintRolesUnfolds(roles);
    tail := if |roles| > 1 then "," + PrintRoles(roles[1..]) else "";
    assert |roles| > 1 ==> Quoted(roles[0]) + "," + PrintRoles(roles[1..]) == Quoted(roles[0]) + tail;
    assert Quoted(roles[0]) + "" == Quoted(roles[0]);
  }

  /** Reading the printed list from where a role's opening quote stands. */
  lemma {:induction false} RolesRead(s: string, start: nat, roles: seq<string>)
    requires RolesClean(roles) && start <= |s| && s[start..] == PrintRoles(roles)
    ensures ParseRoles(s, start) == roles
    decreases |roles|
  {
    hide Find, ParseRoles, PrintRoles, RolesClean, Quoted;
    if roles == [] {
      NothingPrinted();
      RolesEnd(s, start);
    } else {
      var r, rest := roles[0], roles[1..];
      RestClean(roles);
      var tail := PrintedSplits(roles);
      OneRole(s, start, r, tail);
      assert roles == [r] + rest;
      if rest == [] {
        RolesEnd(s, start + |r| + 3);
      } else {
        BehindComma(s, start, r, PrintRoles(rest));
        RolesRead(s, start + |r| + 3, rest);
      }
    }
  }

  lemma BehindComma(s: string, start: nat, r: string, more: string)
    requires start <= |s| && s[start..] == Quoted(r) + ("," + more)
    ensures start + |r| + 3 <= |s| && s[start + |r| + 3..] == more
  {
    assert Quoted(r) + ("," + more) == (Quoted(r) + ",") + more;
    Suffix(s, start, Quoted(r) + ",", more);
  }

  lemma RestClean(roles: seq<string>)
    requires RolesClean(roles) && roles != []
    ensures RolesClean(roles[1..]) && '\"' !in roles[0]
  {
    assert roles[0] in roles;
  }

  // ---------- the round trip ----------

  /** Each stage of the printed text is a prefix of the whole. */
  lemma Stages(c: JwtClaims)
    ensures AfterSub(c) <= AfterUsername(c) <= AfterNickname(c) <= AfterJti(c)
    ensures AfterJti(c) <= AfterIat(c) <= AfterExp(c) <= AfterIss(c) <= Serialize(c)
  {
    hide PrintInt, RolesField;
    assert AfterSub(c) <= AfterUsername(c);
    assert AfterUsername(c) <= AfterNickname(c);
    assert AfterNickname(c) <= AfterJti(c);
    assert AfterJti(c) <= AfterIat(c);
    assert AfterIat(c) <= AfterExp(c);
    assert AfterExp(c) <= AfterIss(c);
  }

  /** A quoted field behind a stage that ends with a quote. */
  lemma NextField(s: string, stage: string, pat: string, text: string)
    requires stage + "," + pat + text + "\"" <= s && stage != [] && stage[|stage| - 1] == '\"' && QuoteFree(text)
    requires 2 <= |pat| && pat[0] == '\"' && pat[1] != ','
    ensures Field(s, pat, |stage| - 1, '\"') == Some((text, |stage + "," + pat + text + "\""| - 1))
  {
    hide Field, Find;
    assert (stage + ",")[|stage| - 1..] == "\",";
    Locates(s, stage + ",", pat, text, '\"', |stage| - 1);
  }

  lemma SubField(c: JwtClaims)
    ensures Field(Serialize(c), "\"sub\":\"", 0, '\"') == Some((PrintInt(c.userId), |AfterSub(c)| - 1))
  {
    Stages(c);
    hide Serialize, Field, Find, PrintInt;
    Locates(Serialize(c), "{", "\"sub\":\"", PrintInt(c.userId), '\"', 0);
  }

  /** The text fields end where their stages do. */
  lemma UsernameField(c: JwtClaims)
    requires QuoteFree(c.username)
    ensures Field(Serialize(c), "\"username\":\"", |AfterSub(c)| - 1, '\"')
        == Some((c.username, |AfterUsername(c)| - 1))
  {
    Stages(c);
    StagesEnd(c);
    hide Serialize, Field, Find, PrintInt, AfterSub, QuoteFree;
    NextField(Serialize(c), AfterSub(c), "\"username\":\"", c.username);
  }

  lemma NicknameField(c: JwtClaims)
    requires QuoteFree(c.nickname)
    ensures Field(Serialize(c), "\"nickname\":\"", |AfterUsername(c)| - 1, '\"')
        == Some((c.nickname, |AfterNickname(c)| - 1))
  {
    Stages(c);
    StagesEnd(c);
    hide Serialize, Field, Find, PrintInt, AfterUsername, QuoteFree;
    NextField(Serialize(c), AfterUsername(c), "\"nickname\":\"", c.nickname);
  }

  lemma JtiField(c: JwtClaims)
    requires QuoteFree(c.jti)
    ensures Field(Serialize(c), "\"jti\":\"", |AfterNickname(c)| - 1, '\"') == Some((c.jti, |AfterJti(c)| - 1))
  {
    Stages(c);
    StagesEnd(c);
    hide Serialize, Field, Find, PrintInt, AfterNickname, QuoteFree;
    NextField(Serialize(c), AfterNickname(c), "\"jti\":\"", c.jti);
  }

  lemma StagesEnd(c: JwtClaims)
    ensures forall s :: s in {AfterSub(c), AfterUsername(c), AfterNickname(c), AfterJti(c), AfterIss(c)} ==>
      s != [] && s[|s| - 1] == '\"'
  {}

  lemma NumberText(n: int)
    ensures ',' !in PrintInt(n) && '}' !in PrintInt(n)
  {
    assert forall c :: c in PrintInt(n) ==> IsDigit(c) || c == '-';
  }

  lemma IatStage(c: JwtClaims)
    ensures AfterJti(c) != [] && |AfterIat(c)| == |AfterJti(c)| + 7 + |PrintInt(c.iat)| + 1
    ensures (AfterJti(c) + ",")[|AfterJti(c)| - 1..] == "\","
    ensures AfterJti(c) + "," + "\"iat\":" + PrintInt(c.iat) + "," <= Serialize(c)
  {
    hide Serialize, PrintInt, AfterJti;
    Stages(c);
    StagesEnd(c);
  }

  lemma IatField(c: JwtClaims)
    ensures Field(Serialize(c), "\"iat\":", |AfterJti(c)| - 1, ',') == Some((PrintInt(c.iat), |AfterIat(c)| - 1))
  {
    hide Serialize, Field, Find, PrintInt, AfterJti, StandsAt;
    Stages(c);
    NumberText(c.iat);
    var pre := AfterJti(c) + ",";
    IatStage(c);
    hide AfterIat, IsDigit;
    Locates(Serialize(c), pre, "\"iat\":", PrintInt(c.iat), ',', |AfterJti(c)| - 1);
  }

  lemma EndsWithComma(c: JwtClaims)
    ensures AfterIat(c) != [] && AfterIat(c)[|AfterIat(c)| - 1..] == ","
    ensures AfterExp(c) != [] && AfterExp(c)[|AfterExp(c)| - 1..] == ","
  {
    hide AfterJti, PrintInt;
  }

  lemma ExpField(c: JwtClaims)
    ensures Find(Serialize(c), "\"exp\":", |AfterIat(c)| - 1) == Some(|AfterIat(c)|)
    ensures Find(Serialize(c), ",", |AfterIat(c)| + 6) == Some(|AfterExp(c)| - 1)
    ensures |AfterIat(c)| + 6 <= |AfterExp(c)| - 1 <= |Serialize(c)|
    ensures Serialize(c)[|AfterIat(c)| + 6..|AfterExp(c)| - 1] == PrintInt(c.exp)
  {
    Stages(c);
    NumberText(c.exp);
    EndsWithComma(c);
    hide Serialize, Field, Find, PrintInt, AfterIat;
    Locates(Serialize(c), AfterIat(c), "\"exp\":", PrintInt(c.exp), ',', |AfterIat(c)| - 1);
  }

  lemma IssField(c: JwtClaims)
    requires QuoteFree(c.issuer)
    ensures Find(Serialize(c), "\"iss\":\"", |AfterExp(c)| - 1) == Some(|AfterExp(c)|)
    ensures Find(Serialize(c), "\"", |AfterExp(c)| + 7) == Some(|AfterIss(c)| - 1)
    ensures |AfterExp(c)| + 7 <= |AfterIss(c)| - 1 <= |Serialize(c)|
    ensures Serialize(c)[|AfterExp(c)| + 7..|AfterIss(c)| - 1] == c.issuer
  {
    Stages(c);
    EndsWithComma(c);
    hide Serialize, Field, Find, PrintInt, AfterExp;
    Locates(Serialize(c), AfterExp(c), "\"iss\":\"", c.issuer, '\"', |AfterExp(c)| - 1);
  }

  lemma AfterIssEnds(c: JwtClaims)
    ensures AfterIss(c) != [] && AfterIss(c)[|AfterIss(c)| - 1] == '\"' && |AfterIss(c)| <= |Serialize(c)|
  {
    StagesEnd(c);
    hide AfterIss, PrintRoles;
  }

  lemma NoRoom(s: string, pat: string, from: nat)
    requires from <= |s| && |s| < from + |pat|
    ensures Find(s, pat, from) == None
  {}

  lemma NoRolesFound(c: JwtClaims)
    requires c.roles == []
    ensures AfterIss(c) != [] && Field(Serialize(c), "\"roles\":[", |AfterIss(c)| - 1, ']') == None
  {
    hide AfterIss, Find;
    AfterIssEnds(c);
    var s := Serialize(c);
    assert |s| == |AfterIss(c)| + 1;
    NoRoom(s, "\"roles\":[", |AfterIss(c)| - 1);
  }

  lemma RolesStage(c: JwtClaims)
    requires c.roles != []
    ensures var pre := AfterIss(c) + ",";
      && AfterIss(c) != [] && pre[|AfterIss(c)| - 1..] == "\","
      && pre + "\"roles\":[" + PrintRoles(c.roles) + "]" + "}" == Serialize(c)
  {
    hide AfterIss, PrintRoles;
    AfterIssEnds(c);
  }

  lemma RolesReadBack(c: JwtClaims, c0: JwtClaims)
    requires RolesClean(c.roles)
    ensures WithRoles(Serialize(c), |AfterIss(c)| - 1, c0) == c0.(roles := c0.roles + c.roles)
  {
    var s, from := Serialize(c), |AfterIss(c)| - 1;
    hide AfterIss, PrintRoles, Field, Find, ParseRoles;
    AfterIssEnds(c);
    if c.roles == [] {
      NoRolesFound(c);
      hide Serialize;
      assert c0.roles + c.roles == c0.roles;
    } else {
      var pre, text := AfterIss(c) + ",", PrintRoles(c.roles);
      RolesStage(c);
      hide Serialize;
      RolesText(c.roles);
      Locates(s, pre, "\"roles\":[", text, ']', from);
      assert text[0..] == text;
      RolesRead(text, 0, c.roles);
    }
  }

  /** Clean claims read back whatever claims object they are read into, except that roles are appended. */
  lemma ReadsBack(c: JwtClaims, c0: JwtClaims)
    requires Clean(c) && Int64(c.userId) && Int64(c.iat) && Int64(c.exp)
    ensures Parse(Serialize(c), c0) == (true, c.(roles := c0.roles + c.roles))
  {
    hide Serialize, Field, Find, PrintInt, Stoll, WithRoles, RolesClean, AfterSub, AfterUsername, AfterNickname;
    hide AfterJti, AfterIat, AfterExp, AfterIss;
    SubField(c);
    StollPrinted(c.userId);
    UsernameField(c);
    NicknameField(c);
    JtiField(c);
    IatField(c);
    StollPrinted(c.iat);
    ExpField(c);
    StollPrinted(c.exp);
    IssField(c);
    RolesReadBack(c, c.(roles := c0.roles));
  }

  lemma TextBefore(s: string, from: nat)
    requires Find(s, "\"", from).Some?
    ensures QuoteFree(s[from..Find(s, "\"", from).value])
  {
    var e := Find(s, "\"", from).value;
    forall i | from <= i < e ensures s[i] != '\"' { assert !StandsAt(s, "\"", i); }
  }

  lemma WithRolesClean(json: string, from: nat, c: JwtClaims)
    requires c.roles == []
    ensures WithRoles(json, from, c) == c.(roles := WithRoles(json, from, c).roles)
    ensures RolesClean(WithRoles(json, from, c).roles)
  {
    hide Find;
    match Field(json, "\"roles\":[", from, ']')
    case None =>
    case Some((text, _)) => assert [] + ParseRoles(text, 0) == ParseRoles(text, 0);
  }

  lemma OptionalClean(json: string, p: nat, e6: nat, c: JwtClaims)
    requires c.roles == [] && c.issuer == ""
    ensures var r := ParseOptional(json, p, e6, c);
      r == c.(issuer := r.issuer, roles := r.roles) && QuoteFree(r.issuer) && RolesClean(r.roles)
  {
    hide Find, WithRoles;
    match Find(json, "\"iss\":\"", e6)
    case None => WithRolesClean(json, e6, c);
    case Some(q) =>
      match Find(json, "\"", q + 7)
      case None =>
      case Some(e7) =>
        TextBefore(json, q + 7);
        WithRolesClean(json, e7, c.(issuer := json[q + 7..e7]));
  }

  lemma OptionalPartClean(json: string, e5: nat, c: JwtClaims)
    requires c.roles == [] && c.issuer == ""
    ensures var (ok, r) := ParseRest(json, e5, c);
      ok ==> r == c.(exp := r.exp, issuer := r.issuer, roles := r.roles) && QuoteFree(r.issuer) && RolesClean(r.roles)
  {
    hide Find, Stoll, ParseOptional;
    match Find(json, "\"exp\":", e5)
    case None =>
    case Some(p) =>
      var comma := Find(json, ",", p + 6);
      var end := if comma.Some? then comma else Find(json, "}", p + 6);
      if end.Some? {
        var exp := Stoll(json[p + 6..end.value]);
        if exp.Some? { OptionalClean(json, p, end.value, c.(exp := exp.value)); }
      }
  }

  /** Whatever text is parsed, no parsed string contains a quote and no parsed role a bracket. */
  lemma ParsedIsClean(json: string)
    ensures Parse(json, NoClaims).0 ==> Clean(Parse(json, NoClaims).1)
  {
    hide Stoll, Find, Field, ParseRest, RolesClean;
    match Field(json, "\"sub\":\"", 0, '\"')
    case None =>
    case Some((sub, e1)) =>
    match Stoll(sub)
    case None =>
    case Some(userId) =>
    match Field(json, "\"username\":\"", e1, '\"')
    case None =>
    case Some((username, e2)) =>
    match Field(json, "\"nickname\":\"", e2, '\"')
    case None =>
    case Some((nickname, e3)) =>
    match Field(json, "\"jti\":\"", e3, '\"')
    case None =>
    case Some((jti, e4)) =>
    match Field(json, "\"iat\":", e4, ',')
    case None =>
    case Some((iat, e5)) =>
    match Stoll(iat)
    case None =>
    case Some(v) =>
      OptionalPartClean(json, e5, NoClaims.(userId := userId, username := username, nickname := nickname, jti := jti,
          iat := v));
  }

  /** Printed claims read back, into a fresh object, exactly when they are clean. */
  lemma RoundTrip(c: JwtClaims)
    requires Int64(c.userId) && Int64(c.iat) && Int64(c.exp)
    ensures Parse(Serialize(c), NoClaims) == (true, c) <==> Clean(c)
  {
    ParsedIsClean(Serialize(c));
    if Clean(c) {
      ReadsBack(c, NoClaims);
      assert [] + c.roles == c.roles;
    }
  }

  // ---------- which texts are read ----------

  /** At its first place from `from` on the name stands, and then the text up to the first closing character,
      which is at `end`. */
  ghost predicate FieldAt(s: string, from: nat, name: string, close: char, text: string, end: nat) {
    exists p: nat :: NameAt(s, from, name, p) && end == p + |name| + |text| < |s|
      && s[p + |name|..end] == text && s[end] == close && close !in text
  }

  ghost predicate NameAt(s: string, from: nat, name: string, p: nat) {
    from <= p && StandsAt(s, name, p) && forall i :: from <= i < p ==> !StandsAt(s, name, i)
  }

  lemma FieldExactly(s: string, from: nat, name: string, close: char, text: string, end: nat)
    ensures Field(s, name, from, close) == Some((text, end)) <==> FieldAt(s, from, name, close, text, end)
  {
    if Field(s, name, from, close) == Some((text, end)) { FieldStands(s, from, name, close, text, end); }
    hide Field;
    if FieldAt(s, from, name, close, text, end) { FieldIs(s, from, name, close, text, end); }
  }

  lemma FieldStands(s: string, from: nat, name: string, close: char, text: string, end: nat)
    requires Field(s, name, from, close) == Some((text, end))
    ensures FieldAt(s, from, name, close, text, end)
  {
    var p := Find(s, name, from).value;
    var e := Find(s, [close], p + |name|).value;
    assert s[e..e + 1] == [close];
    hide Find;
    assert NameAt(s, from, name, p);
  }

  lemma FieldIs(s: string, from: nat, name: string, close: char, text: string, end: nat)
    requires FieldAt(s, from, name, close, text, end)
    ensures Field(s, name, from, close) == Some((text, end))
  {
    var p: nat :| NameAt(s, from, name, p) && end == p + |name| + |text| < |s|
      && s[p + |name|..end] == text && s[end] == close && close !in text;
    hide Find, StandsAt;
    FindIs(s, name, from, p);
    CloseIs(s, p + |name|, text, close);
  }

  lemma CloseIs(s: string, q: nat, text: string, close: char)
    requires q + |text| < |s| && s[q..q + |text|] == text && s[q + |text|] == close && close !in text
    ensures Find(s, [close], q) == Some(q + |text|)
  {
    var e := q + |text|;
    assert s[e..e + 1] == [close];
    forall i | q <= i < e ensures !StandsAt(s, [close], i) {
      assert s[i] == text[i - q];
      StandsNot(s, [close], i);
    }
    FindIs(s, [close], q, e);
  }

  /** What a text is read as: the number fields' texts, and where each field ends. */
  datatype Found = Found(sub: string, e1: nat, e2: nat, e3: nat, e4: nat, iat: string, e5: nat, exp: string, e6: nat)

  /** The fields that must be there, in this order, with numbers in range where numbers are due. The last number
      ends at a comma, or at a brace when there is no comma behind it. */
  ghost predicate Holds(json: string, c: JwtClaims, x: Found) {
    && FieldAt(json, 0, "\"sub\":\"", '\"', x.sub, x.e1) && Stoll(x.sub) == Some(c.userId)
    && FieldAt(json, x.e1, "\"username\":\"", '\"', c.username, x.e2)
    && FieldAt(json, x.e2, "\"nickname\":\"", '\"', c.nickname, x.e3)
    && FieldAt(json, x.e3, "\"jti\":\"", '\"', c.jti, x.e4)
    && FieldAt(json, x.e4, "\"iat\":", ',', x.iat, x.e5) && Stoll(x.iat) == Some(c.iat)
    && (FieldAt(json, x.e5, "\"exp\":", ',', x.exp, x.e6)
        || (FieldAt(json, x.e5, "\"exp\":", '}', x.exp, x.e6)
            && forall t, e :: !FieldAt(json, x.e5, "\"exp\":", ',', t, e)))
    && Stoll(x.exp) == Some(c.exp)
  }

  /** The last of them. */
  function LastNumber(json: string, e5: nat): Option<(string, nat)> {
    var comma := Field(json, "\"exp\":", e5, ',');
    if comma.Some? then comma else Field(json, "\"exp\":", e5, '}')
  }

  lemma RestIs(json: string, e5: nat, c5: JwtClaims)
    ensures var x, r := LastNumber(json, e5), ParseRest(json, e5, c5);
      && (r.0 <==> x.Some? && Stoll(x.value.0).Some?)
      && (r.0 ==> r.1.exp == Stoll(x.value.0).value)
      && (r.0 ==> r.1 == c5.(exp := r.1.exp, issuer := r.1.issuer, roles := r.1.roles))
  {
    hide Find, Stoll, WithRoles;
    match Find(json, "\"exp\":", e5)
    case None =>
    case Some(p) =>
      var comma := Find(json, ",", p + 6);
      var end := if comma.Some? then comma else Find(json, "}", p + 6);
      if end.Some? && Stoll(json[p + 6..end.value]).Some? {
        KeepsOthers(json, p, end.value, c5.(exp := Stoll(json[p + 6..end.value]).value));
      }
  }

  lemma KeepsOthers(json: string, p: nat, e6: nat, c6: JwtClaims)
    ensures var r := ParseOptional(json, p, e6, c6); r == c6.(issuer := r.issuer, roles := r.roles)
  {
    hide Find, Field;
  }

  /** parseClaims succeeds exactly on the texts that hold these fields, and the claims have them. */
  lemma ParseExactly(json: string, c0: JwtClaims)
    ensures Parse(json, c0).0 <==> exists c, x :: Holds(json, c, x)
    ensures Parse(json, c0).0 ==> exists x :: Holds(json, Parse(json, c0).1, x)
  {
    if Parse(json, c0).0 { ParsedHolds(json, c0); }
    if c, x :| Holds(json, c, x) { HoldsParses(json, c0, c, x); }
  }

  lemma FirstFiveRead(json: string, c0: JwtClaims) returns (x: Found, c5: JwtClaims)
    requires Parse(json, c0).0
    ensures c5 == c0.(userId := c5.userId, username := c5.username, nickname := c5.nickname, jti := c5.jti,
                      iat := c5.iat)
    ensures Field(json, "\"sub\":\"", 0, '\"') == Some((x.sub, x.e1)) && Stoll(x.sub) == Some(c5.userId)
    ensures Field(json, "\"username\":\"", x.e1, '\"') == Some((c5.username, x.e2))
    ensures Field(json, "\"nickname\":\"", x.e2, '\"') == Some((c5.nickname, x.e3))
    ensures Field(json, "\"jti\":\"", x.e3, '\"') == Some((c5.jti, x.e4))
    ensures Field(json, "\"iat\":", x.e4, ',') == Some((x.iat, x.e5)) && Stoll(x.iat) == Some(c5.iat)
    ensures Parse(json, c0) == ParseRest(json, x.e5, c5)
  {
    hide Field, Stoll, ParseRest;
    var sub := Field(json, "\"sub\":\"", 0, '\"').value;
    var username := Field(json, "\"username\":\"", sub.1, '\"').value;
    var nickname := Field(json, "\"nickname\":\"", username.1, '\"').value;
    var jti := Field(json, "\"jti\":\"", nickname.1, '\"').value;
    var iat := Field(json, "\"iat\":", jti.1, ',').value;
    c5 := c0.(userId := Stoll(sub.0).value, username := username.0, nickname := nickname.0, jti := jti.0,
              iat := Stoll(iat.0).value);
    x := Found(sub.0, sub.1, username.1, nickname.1, jti.1, iat.0, iat.1, "", 0);
  }

  lemma ParsedHolds(json: string, c0: JwtClaims)
    requires Parse(json, c0).0
    ensures exists x :: Holds(json, Parse(json, c0).1, x)
  {
    hide Field, Stoll, Parse, ParseRest, FieldAt, LastNumber;
    var x, c5 := FirstFiveRead(json, c0);
    RestIs(json, x.e5, c5);
    var exp := LastNumber(json, x.e5).value;
    FieldExactly(json, 0, "\"sub\":\"", '\"', x.sub, x.e1);
    FieldExactly(json, x.e1, "\"username\":\"", '\"', c5.username, x.e2);
    FieldExactly(json, x.e2, "\"nickname\":\"", '\"', c5.nickname, x.e3);
    FieldExactly(json, x.e3, "\"jti\":\"", '\"', c5.jti, x.e4);
    FieldExactly(json, x.e4, "\"iat\":", ',', x.iat, x.e5);
    ExpIsField(json, x.e5, exp.0, exp.1);
    assert Holds(json, Parse(json, c0).1, x.(exp := exp.0, e6 := exp.1));
  }

  lemma ExpIsField(json: string, e5: nat, t: string, e: nat)
    ensures LastNumber(json, e5) == Some((t, e)) <==>
      FieldAt(json, e5, "\"exp\":", ',', t, e)
      || (FieldAt(json, e5, "\"exp\":", '}', t, e) && forall u, f :: !FieldAt(json, e5, "\"exp\":", ',', u, f))
  {
    forall u: string, f: nat
      ensures Field(json, "\"exp\":", e5, ',') == Some((u, f)) <==> FieldAt(json, e5, "\"exp\":", ',', u, f)
    {
      FieldExactly(json, e5, "\"exp\":", ',', u, f);
    }
    FieldExactly(json, e5, "\"exp\":", '}', t, e);
    hide Field, FieldAt;
    var x := Field(json, "\"exp\":", e5, ',');
    if x.Some? { assert Field(json, "\"exp\":", e5, ',') == Some((x.value.0, x.value.1)); }
  }

  lemma HoldsParses(json: string, c0: JwtClaims, c: JwtClaims, x: Found)
    requires Holds(json, c, x)
    ensures Parse(json, c0).0
  {
    hide Field, Stoll, Parse, ParseRest, FieldAt;
    FieldExactly(json, 0, "\"sub\":\"", '\"', x.sub, x.e1);
    FieldExactly(json, x.e1, "\"username\":\"", '\"', c.username, x.e2);
    FieldExactly(json, x.e2, "\"nickname\":\"", '\"', c.nickname, x.e3);
    FieldExactly(json, x.e3, "\"jti\":\"", '\"', c.jti, x.e4);
    FieldExactly(json, x.e4, "\"iat\":", ',', x.iat, x.e5);
    ExpIsField(json, x.e5, x.exp, x.e6);
    hide Holds, LastNumber;
    FirstFive(json, c0, c, x);
    RestIs(json, x.e5, c0.(userId := c.userId, username := c.username, nickname := c.nickname, jti := c.jti,
                           iat := c.iat));
  }

  lemma FirstFive(json: string, c0: JwtClaims, c: JwtClaims, x: Found)
    requires Field(json, "\"sub\":\"", 0, '\"') == Some((x.sub, x.e1)) && Stoll(x.sub) == Some(c.userId)
    requires Field(json, "\"username\":\"", x.e1, '\"') == Some((c.username, x.e2))
    requires Field(json, "\"nickname\":\"", x.e2, '\"') == Some((c.nickname, x.e3))
    requires Field(json, "\"jti\":\"", x.e3, '\"') == Some((c.jti, x.e4))
    requires Field(json, "\"iat\":", x.e4, ',') == Some((x.iat, x.e5)) && Stoll(x.iat) == Some(c.iat)
    ensures Parse(json, c0) == ParseRest(json, x.e5, c0.(userId := c.userId, username := c.username,
        nickname := c.nickname, jti := c.jti, iat := c.iat))
  {
    hide Field, Stoll, ParseRest;
  }

  ghost predicate NoQuoteFrom(s: string, start: nat) { forall i :: start <= i < |s| ==> s[i] != '\"' }

  /** The issuer and the roles may be missing. The roles are sought behind the issuer, or behind the last number
      when there is none; when the issuer's closing quote is missing neither is read. Roles are added to those
      that the claims had. */
  lemma OptionalExactly(json: string, p: nat, e6: nat, c6: JwtClaims)
    ensures forall q: nat :: NameAt(json, e6, "\"iss\":\"", q) && NoQuoteFrom(json, q + 7) ==>
      ParseOptional(json, p, e6, c6) == c6
    ensures forall issuer, e7 :: FieldAt(json, e6, "\"iss\":\"", '\"', issuer, e7) ==>
      ParseOptional(json, p, e6, c6) == WithRoles(json, e7, c6.(issuer := issuer))
    ensures (forall q: nat :: !NameAt(json, e6, "\"iss\":\"", q)) ==>
      ParseOptional(json, p, e6, c6) == WithRoles(json, e6, c6)
  {
    forall q: nat | NameAt(json, e6, "\"iss\":\"", q) ensures Find(json, "\"iss\":\"", e6) == Some(q) {
      FindIs(json, "\"iss\":\"", e6, q);
    }
    forall issuer, e7 | FieldAt(json, e6, "\"iss\":\"", '\"', issuer, e7)
      ensures ParseOptional(json, p, e6, c6) == WithRoles(json, e7, c6.(issuer := issuer))
    {
      FieldExactly(json, e6, "\"iss\":\"", '\"', issuer, e7);
      OptionalFound(json, p, e6, c6, issuer, e7);
    }
    OptionalMissing(json, p, e6, c6);
    hide Find, FieldAt, StandsAt, ParseOptional, WithRoles;
  }

  lemma OptionalFound(json: string, p: nat, e6: nat, c6: JwtClaims, issuer: string, e7: nat)
    requires Field(json, "\"iss\":\"", e6, '\"') == Some((issuer, e7))
    ensures ParseOptional(json, p, e6, c6) == WithRoles(json, e7, c6.(issuer := issuer))
  {
    hide Find, WithRoles;
  }

  lemma OptionalMissing(json: string, p: nat, e6: nat, c6: JwtClaims)
    ensures forall q: nat :: Find(json, "\"iss\":\"", e6) == Some(q) && NoQuoteFrom(json, q + 7) ==>
      ParseOptional(json, p, e6, c6) == c6
    ensures (forall q: nat :: !NameAt(json, e6, "\"iss\":\"", q)) ==>
      ParseOptional(json, p, e6, c6) == WithRoles(json, e6, c6)
  {
    var f := Find(json, "\"iss\":\"", e6);
    if f.Some? {
      assert StandsAt(json, "\"iss\":\"", f.value);
      assert NameAt(json, e6, "\"iss\":\"", f.value);
      var e := Find(json, "\"", f.value + 7);
      if e.Some? { assert json[e.value..e.value + 1][0] == json[e.value] == '\"'; }
    }
    hide Find, WithRoles, StandsAt;
  }

  lemma RolesExactly(json: string, from: nat, c: JwtClaims)
    ensures forall text, e :: FieldAt(json, from, "\"roles\":[", ']', text, e) ==>
      WithRoles(json, from, c) == c.(roles := c.roles + ParseRoles(text, 0))
    ensures (forall text, e :: !FieldAt(json, from, "\"roles\":[", ']', text, e)) ==> WithRoles(json, from, c) == c
  {
    forall text: string, e: nat ensures Field(json, "\"roles\":[", from, ']') == Some((text, e)) <==>
      FieldAt(json, from, "\"roles\":[", ']', text, e)
    {
      FieldExactly(json, from, "\"roles\":[", ']', text, e);
    }
    hide Field, FieldAt, ParseRoles;
    var x := Field(json, "\"roles\":[", from, ']');
    if x.Some? { assert FieldAt(json, from, "\"roles\":[", ']', x.value.0, x.value.1); }
  }

  // ---------- as JSON ----------

  /** The values that occur: a string, a number, a list of strings. No character is escaped. */
  datatype Json = Text(s: string) | Number(n: int) | Texts(ts: seq<string>)

  function Commas(ts: seq<string>): string {
    if ts == [] then "" else if |ts| == 1 then ts[0] else ts[0] + "," + Commas(ts[1..])
  }

  function InQuotes(t: string): string { "\"" + t + "\"" }

  function AllInQuotes(ts: seq<string>): (r: seq<string>)
    ensures |r| == |ts|
  {
    seq(|ts|, i requires 0 <= i < |ts| => InQuotes(ts[i]))
  }

  function JsonValue(v: Json): string {
    match v
    case Text(s) => InQuotes(s)
    case Number(n) => PrintInt(n)
    case Texts(ts) => "[" + Commas(AllInQuotes(ts)) + "]"
  }

  function Members(ms: seq<(string, Json)>): (r: seq<string>)
    ensures |r| == |ms|
  {
    seq(|ms|, i requires 0 <= i < |ms| => InQuotes(ms[i].0) + ":" + JsonValue(ms[i].1))
  }

  function JsonObject(ms: seq<(string, Json)>): string { "{" + Commas(Members(ms)) + "}" }

  /** The names of section 4.1 of RFC 7519 and the others, in the order in which they are printed. */
  function MembersOf(c: JwtClaims): seq<(string, Json)> {
    [("sub", Text(PrintInt(c.userId))), ("username", Text(c.username)), ("nickname", Text(c.nickname)),
     ("jti", Text(c.jti)), ("iat", Number(c.iat)), ("exp", Number(c.exp)), ("iss", Text(c.issuer))]
    + (if c.roles == [] then [] else [("roles", Texts(c.roles))])
  }

  lemma {:induction false} RolesAreJson(roles: seq<string>)
    ensures PrintRoles(roles) == Commas(AllInQuotes(roles))
    decreases |roles|
  {
    if roles != [] {
      RolesAreJson(roles[1..]);
      assert AllInQuotes(roles) == [InQuotes(roles[0])] + AllInQuotes(roles[1..]);
      assert AllInQuotes(roles)[1..] == AllInQuotes(roles[1..]);
      PrintRolesUnfolds(roles);
    }
  }

  lemma {:induction false} CommasAppend(a: seq<string>, b: seq<string>)
    requires a != [] && b != []
    ensures Commas(a + b) == Commas(a) + "," + Commas(b)
    decreases |a|
  {
    assert (a + b)[1..] == a[1..] + b && (a + b)[0] == a[0];
    if |a| > 1 {
      CommasAppend(a[1..], b);
      assert a[0] + "," + (Commas(a[1..]) + "," + Commas(b)) == a[0] + "," + Commas(a[1..]) + "," + Commas(b);
    } else {
      assert a[1..] + b == b;
    }
  }

  lemma CommasOfSeven(a: string, b: string, c: string, d: string, e: string, f: string, g: string)
    ensures Commas([a, b, c, d, e, f, g]) == a + "," + b + "," + c + "," + d + "," + e + "," + f + "," + g
  {
    CommasOne(g);
    CommasStep(f, [g]);
    CommasStep(e, [f, g]);
    CommasStep(d, [e, f, g]);
    CommasStep(c, [d, e, f, g]);
    CommasStep(b, [c, d, e, f, g]);
    CommasStep(a, [b, c, d, e, f, g]);
    hide Commas;
  }

  lemma CommasOne(a: string)
    ensures Commas([a]) == a
  {}

  lemma CommasStep(a: string, more: seq<string>)
    requires more != []
    ensures Commas([a] + more) == a + "," + Commas(more)
  {
    assert ([a] + more)[1..] == more;
  }

  /** A stage, a comma and one more member. */
  lemma StageText(stage: string, name: string, pat: string, text: string)
    requires pat == "\"" + name + "\":\""
    ensures stage + "," + pat + text + "\"" == stage + "," + (InQuotes(name) + ":" + InQuotes(text))
  {
    assert pat + text + "\"" == InQuotes(name) + ":" + InQuotes(text);
    assert stage + "," + pat + text + "\"" == stage + "," + (pat + text + "\"");
  }

  function TextMember(name: string, text: string): string { InQuotes(name) + ":" + InQuotes(text) }
  function NumberMember(name: string, n: int): string { InQuotes(name) + ":" + PrintInt(n) }

  lemma FirstStages(c: JwtClaims)
    ensures AfterJti(c) == "{" + TextMember("sub", PrintInt(c.userId)) + "," + TextMember("username", c.username)
      + "," + TextMember("nickname", c.nickname) + "," + TextMember("jti", c.jti)
  {
    hide PrintInt;
    assert AfterSub(c) == "{" + TextMember("sub", PrintInt(c.userId)) by {
      StageText("", "sub", "\"sub\":\"", PrintInt(c.userId));
      assert "\"sub\":\"" + PrintInt(c.userId) + "\"" == TextMember("sub", PrintInt(c.userId));
    }
    StageText(AfterSub(c), "username", "\"username\":\"", c.username);
    StageText(AfterUsername(c), "nickname", "\"nickname\":\"", c.nickname);
    StageText(AfterNickname(c), "jti", "\"jti\":\"", c.jti);
    hide AfterSub, InQuotes;
  }

  lemma LastStages(c: JwtClaims)
    ensures AfterIss(c) == AfterJti(c) + "," + NumberMember("iat", c.iat) + "," + NumberMember("exp", c.exp) + ","
      + TextMember("iss", c.issuer)
  {
    hide PrintInt, AfterJti;
    assert "\"iat\":" + PrintInt(c.iat) == NumberMember("iat", c.iat);
    assert "\"exp\":" + PrintInt(c.exp) == NumberMember("exp", c.exp);
    assert "\"iss\":\"" + c.issuer + "\"" == TextMember("iss", c.issuer);
    hide NumberMember, TextMember, InQuotes;
    var a, x, y, z := AfterJti(c), NumberMember("iat", c.iat), NumberMember("exp", c.exp), TextMember("iss", c.issuer);
    assert AfterIat(c) == a + "," + x + ",";
    assert AfterExp(c) == a + "," + x + "," + y + ",";
    hide AfterIat, AfterExp;
    assert AfterIss(c) == AfterExp(c) + z;
  }

  lemma MembersAre(c: JwtClaims)
    ensures Members(MembersOf(c)) ==
      [TextMember("sub", PrintInt(c.userId)), TextMember("username", c.username), TextMember("nickname", c.nickname),
       TextMember("jti", c.jti), NumberMember("iat", c.iat), NumberMember("exp", c.exp), TextMember("iss", c.issuer)]
      + (if c.roles == [] then [] else [InQuotes("roles") + ":[" + Commas(AllInQuotes(c.roles)) + "]"])
  {
    var list := Commas(AllInQuotes(c.roles));
    assert InQuotes("roles") + ":" + ("[" + list + "]") == InQuotes("roles") + ":[" + list + "]";
    hide PrintInt, Commas, AllInQuotes, InQuotes;
  }

  lemma Braced(a: string, b: string, c: string, d: string, e: string, f: string, g: string)
    ensures "{" + a + "," + b + "," + c + "," + d + "," + e + "," + f + "," + g
      == "{" + (a + "," + b + "," + c + "," + d + "," + e + "," + f + "," + g)
  {}

  function Seven(c: JwtClaims): (r: seq<string>)
    ensures r != []
  {
    [TextMember("sub", PrintInt(c.userId)), TextMember("username", c.username), TextMember("nickname", c.nickname),
     TextMember("jti", c.jti), NumberMember("iat", c.iat), NumberMember("exp", c.exp), TextMember("iss", c.issuer)]
  }

  lemma SevenAre(c: JwtClaims)
    ensures AfterIss(c) == "{" + Commas(Seven(c))
  {
    FirstStages(c);
    LastStages(c);
    var m1, m2, m3, m4 := TextMember("sub", PrintInt(c.userId)), TextMember("username", c.username),
      TextMember("nickname", c.nickname), TextMember("jti", c.jti);
    var m5, m6, m7 := NumberMember("iat", c.iat), NumberMember("exp", c.exp), TextMember("iss", c.issuer);
    hide TextMember, NumberMember, PrintInt, AfterJti, AfterIss, Commas;
    CommasOfSeven(m1, m2, m3, m4, m5, m6, m7);
    Braced(m1, m2, m3, m4, m5, m6, m7);
  }

  /** serializeClaims prints a JSON object with these members, each under its name. */
  lemma SerializesJson(c: JwtClaims)
    ensures Serialize(c) == JsonObject(MembersOf(c))
  {
    SevenAre(c);
    MembersAre(c);
    RolesAreJson(c.roles);
    var seven, roles := Seven(c), InQuotes("roles") + ":[" + Commas(AllInQuotes(c.roles)) + "]";
    hide AfterIss, Commas, PrintInt, AllInQuotes, TextMember, NumberMember, MembersOf, Members;
    if c.roles == [] {
      assert seven + [] == seven && Commas(seven) + "" == Commas(seven);
      assert Serialize(c) == AfterIss(c) + "" + "}";
    } else {
      CommasAppend(seven, [roles]);
      CommasOne(roles);
      RolesMember(c.roles, roles);
      hide RolesField;
      assert Serialize(c) == "{" + Commas(seven) + ("," + roles) + "}";
      assert "{" + Commas(seven) + ("," + roles) + "}" == "{" + (Commas(seven) + "," + roles) + "}";
    }
  }

  lemma RolesMember(roles: seq<string>, member: string)
    requires roles != [] && member == InQuotes("roles") + ":[" + Commas(AllInQuotes(roles)) + "]"
    requires PrintRoles(roles) == Commas(AllInQuotes(roles))
    ensures RolesField(roles) == "," + member
  {
    assert ",\"roles\":[" == "," + (InQuotes("roles") + ":[");
    hide PrintRoles, Commas, AllInQuotes;
  }

  // ---------- the two loops over roles ----------

  method RolesLoop(text: string) returns (roles: seq<string>)
    ensures roles == ParseRoles(text, 0)
  {
    hide Find;
    roles := [];
    var start := 0;
    while start < |text|
      invariant start >= 0 && ParseRoles(text, 0) == roles + ParseRoles(text, start)
      decreases if start < |text| then |text| - start else 0
    {
      var q := Find(text, "\"", start);
      if q.None? { return; }
      var e := Find(text, "\"", q.value + 1);
      if e.None? { return; }
      assert roles + ([text[q.value + 1..e.value]] + ParseRoles(text, e.value + 2))
          == roles + [text[q.value + 1..e.value]] + ParseRoles(text, e.value + 2);
      roles := roles + [text[q.value + 1..e.value]];
      start := e.value + 2;
    }
  }

  method PrintRolesLoop(roles: seq<string>) returns (s: string)
    ensures s == PrintRoles(roles)
  {
    s := "";
    for i := 0 to |roles|
      invariant PrintRoles(roles) == s + PrintRoles(roles[i..])
    {
      PrintRolesUnfolds(roles[i..]);
      assert roles[i..][0] == roles[i] && roles[i..][1..] == roles[i + 1..];
      hide PrintRoles, Quoted;
      var comma := if i < |roles| - 1 then "," else "";
      assert s + (Quoted(roles[i]) + comma + PrintRoles(roles[i + 1..]))
          == s + Quoted(roles[i]) + comma + PrintRoles(roles[i + 1..]);
      s := s + Quoted(roles[i]) + comma;
    }
  }
}
