/** Uri: built from a parsed URL, printed again, and read back. */
module Uris {
  import opened Decimals
  import opened Numbers
  import opened Wrappers
  import opened UrlParser
  import opened UrlProperties
  import opened UrlGrammar

  datatype UriValue = UriValue(
    scheme: string, userinfo: string, host: string, path: string, query: string, fragment: string, port: int)

  const NoUri := UriValue("", "", "", "", "", "", 0)

  /** The text of a field, empty when it is not set. */
  function Part(url: string, f: Fields, uf: Field): string
    requires Bounded(f, |url|)
  {
    if uf in f then Text(url, f[uf]) else ""
  }

  /** The port that Create assumes; it does not know wss. */
  function DefaultPort(scheme: string): nat {
    if scheme == "http" || scheme == "ws" then 80 else if scheme == "https" then 443 else 0
  }

  /** std::stoi; None is its exception. */
  function Stoi(text: string): Option<int> {
    var n := ParseInt(text);
    if n.Some? && -TWO_31 <= n.value < TWO_31 then n else None
  }

  /** It reads digits behind white space and a sign, and throws without digits or when the value is no 32-bit
      integer. */
  lemma StoiReads(spaces: string, sign: string, digits: string, rest: string)
    requires (forall c :: c in spaces ==> c in " \t\n\r" || c as int == 11 || c as int == 12)
    requires sign == "" || sign == "+" || sign == "-"
    requires (forall c :: c in digits ==> '0' <= c <= '9') && (rest == [] || !('0' <= rest[0] <= '9'))
    requires digits == "" && rest != [] ==> !IsSpace(rest[0]) && (sign == "" ==> rest[0] != '+' && rest[0] != '-')
    ensures var v := if sign == "-" then 0 - ParseNat(digits) else ParseNat(digits);
      Stoi(spaces + sign + digits + rest) ==
        if digits == "" || v < -2147483648 || v > 2147483647 then None else Some(v)
  {
    ParseIntReads(spaces, sign, digits, rest);
    hide ParseInt, ParseNat;
  }

  /** What Uri::Create returns, or that std::stoi throws. */
  datatype Creation = Made(uri: UriValue) | NullPointer | Throws

  /** Uri::Create */
  function FromUrl(url: string): Creation {
    match ParseUrl(url, false)
    case None => NullPointer
    case Some(u) =>
      var f := u.fields;
      var scheme := Part(url, f, Schema);
      var port := if Port in f then Stoi(Text(url, f[Port])) else Some(DefaultPort(scheme));
      if port.None? then Throws
      else Made(UriValue(scheme, Part(url, f, Userinfo), Part(url, f, Host), Part(url, f, Path), Part(url, f, Query),
                         Part(url, f, Fragment), port.value))
  }

  function GetPath(u: UriValue): string { if u.path == "" then "/" else u.path }

  /** The Uri with the path that getPath returns. */
  function Normal(u: UriValue): UriValue { u.(path := GetPath(u)) }

  /** getPort, which does know wss. */
  function GetPort(u: UriValue): int {
    if u.port != 0 then u.port else if u.scheme == "wss" then 443 else DefaultPort(u.scheme)
  }

  predicate IsDefaultPort(u: UriValue) {
    DefaultPort(u.scheme) != 0 && u.port == DefaultPort(u.scheme)
  }

  function At(u: UriValue): string { if u.userinfo == "" then "" else "@" }
  function PortText(u: UriValue): string { if IsDefaultPort(u) then "" else ":" + PrintInt(u.port) }
  function QueryMark(u: UriValue): string { if u.query == "" then "" else "?" }
  function HashMark(u: UriValue): string { if u.fragment == "" then "" else "#" }

  /** Uri::toString */
  function ToString(u: UriValue): string {
    u.scheme + "://" + u.userinfo + At(u) + u.host + PortText(u) + GetPath(u) + QueryMark(u) + u.query + HashMark(u)
        + u.fragment
  }

  /** A Uri object and its setters' fields. */
  class Uri {
    var scheme: string
    var userinfo: string
    var host: string
    var path: string
    var query: string
    var fragment: string
    var port: int

    function View(): UriValue
      reads this
    {
      UriValue(scheme, userinfo, host, path, query, fragment, port)
    }

    constructor ()
      ensures View() == NoUri
    {
      scheme, userinfo, host, path, query, fragment, port := "", "", "", "", "", "", 0;
    }

    static method Create(url: string) returns (uri: Uri?, thrown: bool)
      ensures match FromUrl(url)
        case Made(u) => !thrown && uri != null && fresh(uri) && uri.View() == u
        case NullPointer => !thrown && uri == null
        case Throws => thrown
    {
      hide ParseUrl, Stoi, Text;
      uri, thrown := null, false;
      var parsed := ParseUrl(url, false);
      if parsed.None? { return; }
      var f := parsed.value.fields;
      var u := new Uri();
      if Schema in f { u.scheme := Text(url, f[Schema]); }
      if Userinfo in f { u.userinfo := Text(url, f[Userinfo]); }
      if Host in f { u.host := Text(url, f[Host]); }
      if Port in f {
        var port := Stoi(Text(url, f[Port]));
        if port.None? { return null, true; }
        u.port := port.value;
      } else if u.scheme == "http" || u.scheme == "ws" {
        u.port := 80;
      } else if u.scheme == "https" {
        u.port := 443;
      }
      if Path in f { u.path := Text(url, f[Path]); }
      if Query in f { u.query := Text(url, f[Query]); }
      if Fragment in f { u.fragment := Text(url, f[Fragment]); }
      return u, false;
    }
  }

  // ---------- what a Uri is made of ----------

  ghost predicate AllIn(s: string, p: char -> bool) { forall c :: c in s ==> p(c) }

  /** The text of a part. */
  function Slice(s: string, i: nat, j: nat): string
    requires j <= |s|
  {
    if i < j then s[i..j] else ""
  }

  predicate HostTextChar(c: char) { IsHostChar(c) || IsAddressChar(c) || IsZoneChar(c) }

  /** The parts of a Uri with a scheme: what characters they have. */
  ghost predicate Clean(u: UriValue) {
    && u.scheme != "" && AllIn(u.scheme, IsAlpha) && AllIn(u.userinfo, IsUserinfoChar)
    && u.host != "" && AllIn(u.host, HostTextChar)
    && (u.path != "" ==> u.path[0] == '/') && AllIn(u.path, IsUrlChar) && AllIn(u.query, IsQueryChar)
    && (u.fragment != "" ==> u.fragment[0] != '#') && AllIn(u.fragment, IsFragmentChar)
    && 0 <= u.port <= 65535
  }

  /** The text that a part's entry stands for: both its numbers are cut to 16 bits. */
  function CutText(s: string, i: nat, j: nat): string
    requires j <= |s|
  {
    if i < j then s[U16(i)..U16(i) + U16(j - i)] else ""
  }

  lemma Uncut(s: string, i: nat, j: nat)
    requires j <= |s| && (i < j ==> i < 65536 && j - i < 65536)
    ensures CutText(s, i, j) == Slice(s, i, j)
  {}

  ghost predicate EndsWithin(url: string, l: Layout, m: Authority) {
    l.s <= |url| && m.u <= |url| && m.b <= |url| && l.p <= |url| && l.q <= |url| && l.f <= |url|
  }

  /** The parts of a layout are those of a Uri. */
  ghost predicate PartsAre(url: string, l: Layout, m: Authority, u: UriValue) {
    && EndsWithin(url, l, m)
    && u.scheme == Slice(url, 0, l.s) && u.userinfo == Slice(url, l.h, m.u) && u.host == Slice(url, m.a, m.b)
    && u.path == Slice(url, l.p, l.q) && u.query == Slice(url, l.r, l.f) && u.fragment == Slice(url, l.g, |url|)
    && u.port == if m.c < l.p then ParseNat(Slice(url, m.c, l.p)) else DefaultPort(u.scheme)
  }

  /** The parts of a layout, cut to 16 bits, are those of a Uri. */
  ghost predicate CutPartsAre(url: string, l: Layout, m: Authority, u: UriValue) {
    && EndsWithin(url, l, m)
    && u.scheme == CutText(url, 0, l.s) && u.userinfo == CutText(url, l.h, m.u) && u.host == CutText(url, m.a, m.b)
    && u.path == CutText(url, l.p, l.q) && u.query == CutText(url, l.r, l.f) && u.fragment == CutText(url, l.g, |url|)
    && u.port == if m.c < l.p then ParseNat(Slice(url, m.c, l.p)) else DefaultPort(u.scheme)
  }

  lemma GrammarOrder(url: string, l: Layout)
    requires Grammar(url, false, l, |url|)
    ensures l.s <= l.h <= l.p <= l.q <= l.r <= l.f <= l.g <= |url|
  {}

  lemma PartText(url: string, f: Fields, l: Layout, m: Authority, uf: Field)
    requires Parsed(f, l, m, |url|) && Bounded(f, |url|) && PartEnd(l, m, |url|, uf) <= |url|
    ensures Part(url, f, uf) == CutText(url, PartStart(l, m, uf), PartEnd(l, m, |url|, uf))
  {
    hide PartStart, PartEnd;
  }

  /** What std::stoi makes of the port's part. */
  lemma PortText16(url: string, l: Layout, m: Authority, f: Fields)
    requires UrlIs(url, false, l, m) && Parsed(f, l, m, |url|) && PortFits(l, m) && l.h <= m.c <= l.p <= |url|
    ensures Port in f <==> m.c < l.p
    ensures Port in f ==> f[Port].off + f[Port].len <= |url|
    ensures Port in f ==> Stoi(Text(url, f[Port])) == Some(ParseNat(Slice(url, m.c, l.p)))
  {
    PortIs(url, l, m, f);
    hide Grammar, Parsed, ParseNat, ParseInt, PortValue;
    if Port in f {
      var text := url[m.c..l.p];
      forall i | 0 <= i < |text| ensures IsDigit(text[i]) { hide HostLayout; PortDigits(url, l, m, m.c + i); }
      ParseIntDigits(text);
    }
  }

  lemma CutParts(url: string, f: Fields, l: Layout, m: Authority)
    requires Parsed(f, l, m, |url|) && Bounded(f, |url|) && EndsWithin(url, l, m)
    ensures Part(url, f, Schema) == CutText(url, 0, l.s) && Part(url, f, Userinfo) == CutText(url, l.h, m.u)
    ensures Part(url, f, Host) == CutText(url, m.a, m.b) && Part(url, f, Path) == CutText(url, l.p, l.q)
    ensures Part(url, f, Query) == CutText(url, l.r, l.f) && Part(url, f, Fragment) == CutText(url, l.g, |url|)
  {
    hide Part, Parsed, Bounded, CutText;
    PartText(url, f, l, m, Schema);
    PartText(url, f, l, m, Userinfo);
    PartText(url, f, l, m, Host);
    PartText(url, f, l, m, Path);
    PartText(url, f, l, m, Query);
    PartText(url, f, l, m, Fragment);
  }

  lemma LayoutEnds(url: string, l: Layout, m: Authority)
    requires UrlIs(url, false, l, m)
    ensures EndsWithin(url, l, m) && l.h <= m.c <= l.p
  {
    GrammarOrder(url, l);
    AuthorityOrder(url, l, m);
    hide Grammar, HostLayout;
  }

  /** Create on a text of the grammar of any length. */
  lemma CreateCut(url: string, l: Layout, m: Authority)
    requires UrlIs(url, false, l, m) && PortFits(l, m)
    ensures FromUrl(url).Made? && CutPartsAre(url, l, m, FromUrl(url).uri)
  {
    hide ParseUrl, UrlIs, ParseNat, Slice, Part, Parsed, DefaultPort, Text, Bounded, CutText, Stoi, EndsWithin;
    LayoutEnds(url, l, m);
    GrammarIsParsed(url, false, l, m);
    var f := ParseUrl(url, false).value.fields;
    EndsReach(url, l, m);
    PortText16(url, l, m, f);
    CutParts(url, f, l, m);
  }

  lemma EndsReach(url: string, l: Layout, m: Authority)
    requires EndsWithin(url, l, m)
    ensures l.p <= |url|
  {}

  /** Below 65536 bytes Create finds the parts themselves. */
  lemma CreateExact(url: string, l: Layout, m: Authority)
    requires |url| < 65536 && UrlIs(url, false, l, m)
    ensures FromUrl(url).Made? && PartsAre(url, l, m, FromUrl(url).uri)
  {
    assert Grammar(url, false, l, |url|);
    ShortFits(url, false, l, m);
    GrammarOrder(url, l);
    AuthorityOrder(url, l, m);
    hide UrlIs, PortFits, FromUrl, ParseNat, DefaultPort, CutText, Grammar;
    CreateCut(url, l, m);
    Uncut(url, 0, l.s);
    Uncut(url, l.h, m.u);
    Uncut(url, m.a, m.b);
    Uncut(url, l.p, l.q);
    Uncut(url, l.r, l.f);
    Uncut(url, l.g, |url|);
    hide Slice;
  }

  /** Create throws for no URL below 65536 bytes, and gives a null pointer exactly when the text is not of
      the grammar. */
  lemma CreateParts(url: string) returns (l: Layout, m: Authority)
    requires |url| < 65536
    ensures FromUrl(url).Made? || FromUrl(url).NullPointer?
    ensures FromUrl(url).Made? <==> ParseUrl(url, false).Some?
    ensures FromUrl(url).Made? ==> UrlIs(url, false, l, m) && PartsAre(url, l, m, FromUrl(url).uri)
  {
    if ParseUrl(url, false).Some? {
      l, m := ParsedLayout(url, false);
      ParsedIsUrl(url, false, l, m);
      hide UrlIs, Grammar, HostLayout, ParseUrl, FromUrl, PartsAre;
      CreateExact(url, l, m);
    } else {
      l, m := Layout(0, 0, 0, 0, 0, 0, 0), Authority(0, false, 0, 0, 0, 0);
    }
  }

  lemma SliceIn(url: string, i: nat, j: nat, c: char)
    requires j <= |url| && c in Slice(url, i, j)
    ensures exists x :: i <= x < j && url[x] == c
  {
    var s := Slice(url, i, j);
    var y :| 0 <= y < |s| && s[y] == c;
    assert url[i + y] == c;
  }

  lemma PortIsSmall(u: UriValue, url: string, l: Layout, m: Authority)
    requires PartsAre(url, l, m, u) && UrlIs(url, false, l, m)
    ensures 0 <= u.port <= 65535
  {
    hide Grammar, HostLayout, ParseNat;
  }

  /** A Uri made from a URL with a scheme. */
  lemma PartsAreClean(url: string, l: Layout, m: Authority, u: UriValue)
    requires UrlIs(url, false, l, m) && PartsAre(url, l, m, u) && u.scheme != ""
    ensures Clean(u) && (m.v6 || AllIn(u.host, IsHostChar))
  {
    PortIsSmall(u, url, l, m);
    AuthorityOrder(url, l, m);
    SchemeHostClean(url, l, m, u);
    hide PartsAre, HostLayout, ParseNat;
    PathQueryClean(url, l, m, u);
    hide Grammar;
  }

  lemma SchemeHostClean(url: string, l: Layout, m: Authority, u: UriValue)
    requires UrlIs(url, false, l, m) && PartsAre(url, l, m, u) && u.scheme != ""
    ensures AllIn(u.scheme, IsAlpha) && AllIn(u.userinfo, IsUserinfoChar) && u.host != ""
    ensures AllIn(u.host, HostTextChar) && (m.v6 || AllIn(u.host, IsHostChar))
  {
    AuthorityOrder(url, l, m);
    assert l.s > 0 && l.h < l.p && m.a < m.b;
    assert AllAlpha(url, 0, l.s) by { assert HeadIs(url, false, l); hide AuthorityIs; }
    AuthorityText(url, HasAt(url, l.h, l.p), l.h, m, l.p);
    hide UrlIs, AuthorityIs, ParseNat, HasAt, HostTextChar, IsUserinfoChar, IsAlpha, IsHostChar;
    forall c | c in u.scheme ensures IsAlpha(c) { SliceIn(url, 0, l.s, c); }
    forall c | c in u.userinfo ensures IsUserinfoChar(c) { SliceIn(url, l.h, m.u, c); }
    forall c | c in u.host ensures HostTextChar(c) && (m.v6 || IsHostChar(c)) { SliceIn(url, m.a, m.b, c); }
  }

  lemma AuthorityText(url: string, at: bool, h: nat, m: Authority, k: nat)
    requires AuthorityIs(url, at, h, m, k)
    ensures AllUserinfo(url, h, m.u)
    ensures forall x :: m.a <= x < m.b <= |url| ==> HostTextChar(url[x]) && (m.v6 || IsHostChar(url[x]))
  {}

  lemma PathQueryClean(url: string, l: Layout, m: Authority, u: UriValue)
    requires UrlIs(url, false, l, m) && PartsAre(url, l, m, u) && u.scheme != ""
    ensures (u.path != "" ==> u.path[0] == '/') && AllIn(u.path, IsUrlChar) && AllIn(u.query, IsQueryChar)
    ensures (u.fragment != "" ==> u.fragment[0] != '#') && AllIn(u.fragment, IsFragmentChar)
  {
    assert l.s > 0;
    forall c | c in u.path ensures IsUrlChar(c) { SliceIn(url, l.p, l.q, c); }
    forall c | c in u.query ensures IsQueryChar(c) { SliceIn(url, l.r, l.f, c); }
    forall c | c in u.fragment ensures IsFragmentChar(c) { SliceIn(url, l.g, |url|, c); }
  }

  // ---------- the printed text ----------

  function PrintedLayout(u: UriValue): Layout {
    var h := |u.scheme| + 3;
    var p := h + |u.userinfo| + |At(u)| + |u.host| + |PortText(u)|;
    var q := p + |GetPath(u)|;
    var r := q + |QueryMark(u)|;
    var f := r + |u.query|;
    Layout(|u.scheme|, h, p, q, r, f, f + |HashMark(u)|)
  }

  function PrintedAuthority(u: UriValue): Authority {
    var end := |u.scheme| + 3 + |u.userinfo|;
    var a := end + |At(u)|;
    var b := a + |u.host|;
    Authority(end, false, a, b, b, if IsDefaultPort(u) then b else b + 1)
  }

  lemma Cat(t: string, x: string, y: string)
    requires x + y <= t
    ensures x <= t && |x| + |y| <= |t| && t[|x|..|x| + |y|] == y
  {
    assert t[..|x + y|] == x + y;
    assert t[..|x|] == (x + y)[..|x|];
    assert t[|x|..|x| + |y|] == (x + y)[|x|..];
  }

  /** Where the pieces of a printed Uri stand. */
  lemma PrintedPieces(u: UriValue)
    ensures var t, l, m := ToString(u), PrintedLayout(u), PrintedAuthority(u);
      && l.g <= |t| && m.b <= l.p
      && t[..l.s] == u.scheme && t[l.s..l.h] == "://" && t[l.h..m.u] == u.userinfo && t[m.u..m.a] == At(u)
          && t[m.a..m.b] == u.host
      && t[m.b..l.p] == PortText(u) && t[l.p..l.q] == GetPath(u) && t[l.q..l.r] == QueryMark(u)
          && t[l.r..l.f] == u.query
      && t[l.f..l.g] == HashMark(u) && t[l.g..] == u.fragment
  {
    hide IsDefaultPort, PortText, GetPath, At, QueryMark, HashMark;
    var t := ToString(u);
    var x1 := u.scheme + "://";
    var x2 := x1 + u.userinfo;
    var x3 := x2 + At(u);
    var x4 := x3 + u.host;
    var x5 := x4 + PortText(u);
    var x6 := x5 + GetPath(u);
    var x7 := x6 + QueryMark(u);
    var x8 := x7 + u.query;
    var x9 := x8 + HashMark(u);
    assert t == x9 + u.fragment;
    hide ToString;
    Cat(t, x9, u.fragment);
    Cat(t, x8, HashMark(u));
    Cat(t, x7, u.query);
    Cat(t, x6, QueryMark(u));
    Cat(t, x5, GetPath(u));
    Cat(t, x4, PortText(u));
    Cat(t, x3, u.host);
    Cat(t, x2, At(u));
    Cat(t, x1, u.userinfo);
    Cat(t, u.scheme, "://");
  }

  /** Every character of a slice is a character of its text. */
  lemma InSlice(t: string, i: nat, j: nat, x: nat)
    requires i <= x < j <= |t|
    ensures t[x] in t[i..j]
  {
    assert t[i..j][x - i] == t[x];
  }

  lemma PrintNatDigits(n: nat)
    ensures forall c :: c in PrintNat(n) ==> IsDigit(c)
  {}

  /** The authority of a printed Uri. */
  lemma PrintedAuthorityIs(u: UriValue)
    requires Clean(u) && AllIn(u.host, IsHostChar)
    ensures var t, l, m := ToString(u), PrintedLayout(u), PrintedAuthority(u);
      l.p <= |t| && AuthorityIs(t, u.userinfo != "", l.h, m, l.p)
  {
    var t, l, m := ToString(u), PrintedLayout(u), PrintedAuthority(u);
    PrintedPieces(u);
    hide ToString, GetPath, QueryMark, HashMark;
    forall x | l.h <= x < m.u ensures IsUserinfoChar(t[x]) { InSlice(t, l.h, m.u, x); }
    forall x | m.a <= x < m.b ensures IsHostChar(t[x]) { InSlice(t, m.a, m.b, x); }
    if u.userinfo != "" { assert t[m.u] == t[m.u..m.a][0]; }
    if !IsDefaultPort(u) {
      assert t[m.b] == t[m.b..l.p][0];
      PrintNatDigits(u.port);
      assert t[m.c..l.p] == t[m.b..l.p][1..] == PrintInt(u.port) == PrintNat(u.port);
      forall x | m.c <= x < l.p ensures IsDigit(t[x]) { InSlice(t, m.c, l.p, x); }
    }
  }

  lemma AuthorityChars(t: string, at: bool, h: nat, m: Authority, k: nat)
    requires AuthorityIs(t, at, h, m, k) && !m.v6
    ensures AllServer(t, h, k) && (HasAt(t, h, k) <==> at)
  {
    if at { assert t[m.u] == '@'; }
  }

  lemma PrintedHead(u: UriValue)
    requires Clean(u)
    ensures HeadIs(ToString(u), false, PrintedLayout(u))
  {
    var t, l := ToString(u), PrintedLayout(u);
    PrintedPieces(u);
    hide ToString;
    forall x | 0 <= x < l.s ensures IsAlpha(t[x]) { InSlice(t, 0, l.s, x); }
    assert t[l.s..l.h][0] == t[l.s] && t[l.s..l.h][1] == t[l.s + 1] && t[l.s..l.h][2] == t[l.s + 2];
  }

  lemma PrintedTail(u: UriValue)
    requires Clean(u)
    ensures var t, l := ToString(u), PrintedLayout(u);
      && l.p < l.q <= |t| && t[l.p] == '/' && AllUrl(t, l.p, l.q)
      && (u.query != "" ==> t[l.q] == '?') && AllQuery(t, l.r, l.f)
      && l.f <= |t| && AllFragment(t, l.g, |t|) && AllHash(t, l.f, l.g) && (l.g < |t| ==> t[l.g] != '#')
  {
    var t, l := ToString(u), PrintedLayout(u);
    PrintedPieces(u);
    hide ToString;
    assert t[l.p] == GetPath(u)[0];
    forall x | l.p <= x < l.q ensures IsUrlChar(t[x]) { InSlice(t, l.p, l.q, x); }
    forall x | l.r <= x < l.f ensures IsQueryChar(t[x]) { InSlice(t, l.r, l.f, x); }
    forall x | l.g <= x < |t| ensures IsFragmentChar(t[x]) { InSlice(t, l.g, |t|, x); }
    forall x | l.f <= x < l.g ensures t[x] == '#' { InSlice(t, l.f, l.g, x); }
    if u.query != "" { assert t[l.q] == t[l.q..l.r][0]; }
    if l.g < |t| { assert t[l.g] == u.fragment[0]; }
  }

  lemma PrintedGrammar(u: UriValue)
    requires Clean(u) && AllServer(ToString(u), PrintedLayout(u).h, PrintedLayout(u).p)
    ensures Grammar(ToString(u), false, PrintedLayout(u), |ToString(u)|)
  {
    PrintedHead(u);
    PrintedTail(u);
    assert u.scheme != "" && PrintedLayout(u).h <= PrintedLayout(u).p;
    hide ToString, Clean, HeadIs, AllServer, AllUrl, AllQuery, AllFragment, AllHash;
  }

  /** A printed Uri is a text of the grammar, with the parts of the Uri, except that an empty path has
      become a slash. */
  lemma PrintedIsUrl(u: UriValue)
    requires Clean(u) && AllIn(u.host, IsHostChar)
    ensures UrlIs(ToString(u), false, PrintedLayout(u), PrintedAuthority(u))
    ensures PartsAre(ToString(u), PrintedLayout(u), PrintedAuthority(u), Normal(u))
  {
    var t, l, m := ToString(u), PrintedLayout(u), PrintedAuthority(u);
    assert l.h < l.p && u.port <= 65535 && t != "";
    PrintedPort(u);
    hide ToString, Clean, AllIn, Grammar, AuthorityIs, HasAt, AllServer, ParseNat, PartsAre, PrintedLayout;
    hide PrintedAuthority;
    PrintedAuthorityIs(u);
    AuthorityChars(t, u.userinfo != "", l.h, m, l.p);
    PrintedGrammar(u);
    PrintedParts(u);
  }

  lemma PrintedPort(u: UriValue)
    requires Clean(u)
    ensures var t, l, m := ToString(u), PrintedLayout(u), PrintedAuthority(u);
      l.p <= |t| && (IsDefaultPort(u) <==> m.c >= l.p) && (m.c < l.p ==> ParseNat(t[m.c..l.p]) == u.port)
  {
    var t, l, m := ToString(u), PrintedLayout(u), PrintedAuthority(u);
    PrintedPieces(u);
    hide ToString;
    if !IsDefaultPort(u) {
      assert t[m.c..l.p] == t[m.b..l.p][1..] == PrintInt(u.port) == PrintNat(u.port);
      PrintParseNat(u.port);
    }
  }

  lemma PrintedParts(u: UriValue)
    requires Clean(u)
    ensures PartsAre(ToString(u), PrintedLayout(u), PrintedAuthority(u), Normal(u))
  {
    PrintedPieces(u);
    PrintedPort(u);
    hide ToString, ParseNat, AllIn;
  }

  // ---------- what is not printed ----------

  /** toString prints no brackets around a host. */
  lemma NoBracketPrinted(u: UriValue, x: nat)
    requires Clean(u) && PrintedLayout(u).h <= x < PrintedLayout(u).p
    ensures x < |ToString(u)| && ToString(u)[x] != '['
  {
    var t, l, m := ToString(u), PrintedLayout(u), PrintedAuthority(u);
    PrintedPieces(u);
    hide ToString;
    if x < m.u { InSlice(t, l.h, m.u, x); }
    else if x < m.a { InSlice(t, m.u, m.a, x); }
    else if x < m.b { InSlice(t, m.a, m.b, x); }
    else {
      InSlice(t, m.b, l.p, x);
      PrintNatDigits(u.port);
    }
  }

  lemma BracketAt(t: string, l: Layout, m: Authority)
    requires HostLayout(t, l, m) && l.h <= l.p <= |t|
    ensures m.v6 ==> l.h < m.a <= l.p && t[m.a - 1] == '['
  {
    if m.v6 { AuthorityOrder(t, l, m); }
    hide HasAt, AllUserinfo, AllAddress, AllZone, AllNum;
  }

  /** The printed path ends whatever authority is read back. */
  lemma PathStops(u: UriValue, l: Layout)
    requires Clean(u) && l.h == |u.scheme| + 3 && l.p <= |ToString(u)| && AllServer(ToString(u), l.h, l.p)
    ensures l.p <= PrintedLayout(u).p
  {
    PrintedTail(u);
    assert !IsServerChar('/');
    hide ToString, IsServerChar, Clean;
  }

  // ---------- reading the printed text ----------

  /** The text that starts at an offset of the printed Uri is where its 16-bit entry says, or the same text
      stands 65536 bytes before it. That is at the start of the Uri, where its scheme is. */
  predicate Harmless(u: UriValue, text: string, start: nat) {
    text == "" || start < 65536 || text <= (u.scheme + "://")[Min(start - 65536, |u.scheme|)..]
  }

  /** What an offset that does not fit in 16 bits does to the round trip: nothing may be lost. */
  predicate NothingLost(u: UriValue) {
    var l := PrintedLayout(u);
    l.p < 65536 && Harmless(u, u.query, l.r) && Harmless(u, u.fragment, l.g)
  }

  /** The printed form is not much longer than 65536 bytes, and its authority starts and fits below that. */
  ghost predicate Compact(u: UriValue) {
    |ToString(u)| <= 65538 && PrintedLayout(u).p - PrintedLayout(u).h < 65536 && PrintedAuthority(u).a < 65536
  }

  lemma WrappedText(t: string, head: string, text: string, start: nat)
    requires head <= t && 3 < |head| && text != "" && 65536 <= start <= start + |text| <= |t| <= 65538
    ensures CutText(t, start, start + |text|) == text <==> text <= head[start - 65536..]
  {
    var i := start - 65536;
    assert i + |text| <= 2 && U16(start) == i && U16(|text|) == |text|;
    hide U16;
    assert CutText(t, start, start + |text|) == t[i..i + |text|] == head[i..][..|text|];
  }

  lemma PrintedStart(u: UriValue)
    ensures u.scheme + "://" <= ToString(u)
  {
    var t, h := ToString(u), |u.scheme| + 3;
    PrintedPieces(u);
    hide ToString;
    assert t[..h] == t[..|u.scheme|] + t[|u.scheme|..h];
  }

  lemma HarmlessExactly(u: UriValue, text: string, start: nat)
    requires Compact(u) && u.scheme != "" && start + |text| <= |ToString(u)|
    requires ToString(u)[start..start + |text|] == text
    requires |text| < 65536
    ensures CutText(ToString(u), start, start + |text|) == text <==> Harmless(u, text, start)
  {
    var t := ToString(u);
    var head := u.scheme + "://";
    PrintedStart(u);
    hide ToString;
    if text != "" && start >= 65536 {
      WrappedText(t, head, text, start);
      assert Min(start - 65536, |u.scheme|) == start - 65536;
    }
  }

  lemma UncutParts(t: string, l: Layout, m: Authority, u: UriValue, v: UriValue)
    requires PartsAre(t, l, m, u) && CutPartsAre(t, l, m, v)
    requires 0 < l.s <= l.h <= m.u <= m.a <= m.b <= l.p <= l.q && l.p < 65536 && l.q - l.p < 65536
    ensures v == u.(query := CutText(t, l.r, l.f), fragment := CutText(t, l.g, |t|))
  {
    hide Slice, CutText, ParseNat, DefaultPort;
    Uncut(t, 0, l.s);
    Uncut(t, l.h, m.u);
    Uncut(t, m.a, m.b);
    Uncut(t, l.p, l.q);
  }

  /** Create on the printed form of a Uri whose host is a name. */
  lemma ReadsBackCut(u: UriValue)
    requires Clean(u) && AllIn(u.host, IsHostChar) && Compact(u) && PrintedLayout(u).p < 65536
    ensures var t, l := ToString(u), PrintedLayout(u);
      && l.r <= l.f <= l.g <= |t|
      && FromUrl(t) == Made(Normal(u).(query := CutText(t, l.r, l.f), fragment := CutText(t, l.g, |t|)))
  {
    var t, l, m := ToString(u), PrintedLayout(u), PrintedAuthority(u);
    PrintedOrder(u);
    hide ToString, UrlIs, FromUrl, AllIn, Clean, PartsAre, CutPartsAre, CutText;
    PrintedIsUrl(u);
    CreateCut(t, l, m);
    UncutParts(t, l, m, Normal(u), FromUrl(t).uri);
  }

  lemma PrintedOrder(u: UriValue)
    requires Clean(u) && Compact(u)
    ensures var t, l, m := ToString(u), PrintedLayout(u), PrintedAuthority(u);
      && 0 < l.s <= l.h <= m.u <= m.a <= m.b <= l.p <= l.q <= l.r <= l.f <= l.g <= |t| && l.q - l.p < 65536
      && PortFits(l, m) == (l.p <= m.c || m.c < 65536)
  {
    PrintedPieces(u);
    hide ToString;
  }

  lemma LastPieces(u: UriValue)
    requires Clean(u) && Compact(u)
    ensures var t, l := ToString(u), PrintedLayout(u);
      && u.scheme != "" && l.r <= l.f <= l.g <= |t| && t[l.r..l.f] == u.query && t[l.g..] == u.fragment
      && l.f == l.r + |u.query| && |t| == l.g + |u.fragment| && |u.query| < 65536 && |u.fragment| < 65536
  {
    PrintedPieces(u);
    hide ToString;
  }

  lemma ReadsBackExactly(u: UriValue)
    requires Clean(u) && AllIn(u.host, IsHostChar) && Compact(u) && PrintedLayout(u).p < 65536
    ensures FromUrl(ToString(u)) == Made(Normal(u)) <==> NothingLost(u)
  {
    var t, l := ToString(u), PrintedLayout(u);
    hide ToString, FromUrl, Clean, CutText, Harmless, AllIn;
    ReadsBackCut(u);
    LastPieces(u);
    HarmlessExactly(u, u.query, l.r);
    HarmlessExactly(u, u.fragment, l.g);
  }

  /** The first two characters of a printed Uri are not slashes. */
  lemma StartsWithScheme(u: UriValue)
    requires Clean(u)
    ensures |ToString(u)| > 2 && ToString(u)[0] != '/' && ToString(u)[1] != '/'
  {
    PrintedHead(u);
    hide ToString;
  }

  lemma LatePath(t: string, f: Fields, l: Layout)
    requires 65536 <= l.p < l.q <= |t| <= 65538 && t[0] != '/' && t[1] != '/'
    requires Bounded(f, |t|) && Path in f && f[Path] == Cut16(l.p, l.q)
    ensures Part(t, f, Path) != "" && Part(t, f, Path)[0] != '/'
  {
    assert U16(l.p) <= 1 && U16(l.q - l.p) == l.q - l.p > 0;
    assert Part(t, f, Path)[0] == t[U16(l.p)];
  }

  lemma MadePath(url: string)
    requires FromUrl(url).Made?
    ensures ParseUrl(url, false).Some? && FromUrl(url).uri.path == Part(url, ParseUrl(url, false).value.fields, Path)
  {
    hide ParseUrl, Part, DefaultPort, Stoi;
  }

  /** A path behind the first 65536 bytes is read from the scheme. */
  lemma PathIsLost(u: UriValue)
    requires Clean(u) && AllIn(u.host, IsHostChar) && Compact(u) && PrintedLayout(u).p >= 65536
    ensures FromUrl(ToString(u)) != Made(Normal(u))
  {
    var t, l, m := ToString(u), PrintedLayout(u), PrintedAuthority(u);
    PrintedIsUrl(u);
    StartsWithScheme(u);
    PathStarts(u);
    hide ToString, Clean, AllIn, Grammar, HostLayout, PrintedLayout, PrintedAuthority, ParseUrl, FromUrl, Part;
    if FromUrl(t).Made? {
      MadePath(t);
      OtherFields(t, false, l, m, Path);
      LatePath(t, ParseUrl(t, false).value.fields, l);
    }
  }

  lemma PathStarts(u: UriValue)
    requires Clean(u)
    ensures Normal(u).path != "" && Normal(u).path[0] == '/'
    ensures PrintedLayout(u).p < PrintedLayout(u).q <= |ToString(u)|
  {
    PrintedPieces(u);
    hide ToString;
  }

  // ---------- the round trip ----------

  lemma AlphaEnds(t: string, i: nat, j: nat)
    requires i < |t| && j < |t| && AllAlpha(t, 0, i) && AllAlpha(t, 0, j) && !IsAlpha(t[i]) && !IsAlpha(t[j])
    ensures i == j
  {
    hide IsAlpha;
  }

  /** The scheme ends where it ended when it was printed. */
  lemma SchemeEnds(u: UriValue, l: Layout)
    requires Clean(u) && Grammar(ToString(u), false, l, |ToString(u)|) && l.s > 0
    ensures l.s == |u.scheme| && l.h == |u.scheme| + 3 && l.p <= PrintedLayout(u).p
  {
    var t := ToString(u);
    PrintedHead(u);
    assert AllServer(t, l.h, l.p) by { assert PathIs(t, false, l); }
    assert HeadIs(t, false, l);
    hide ToString, Grammar, PathIs, AllAlpha;
    AlphaEnds(t, l.s, |u.scheme|);
    hide AllServer, Clean;
    PathStops(u, l);
  }

  /** In a printed Uri the user information is followed by the only '@'. */
  lemma OnlyAt(u: UriValue, x: nat)
    requires Clean(u) && PrintedLayout(u).h <= x < PrintedLayout(u).p
    ensures x < |ToString(u)| && (ToString(u)[x] == '@' ==> u.userinfo != "" && x == PrintedAuthority(u).u)
  {
    var t, l, m := ToString(u), PrintedLayout(u), PrintedAuthority(u);
    PrintedPieces(u);
    hide ToString;
    if x < m.u { InSlice(t, l.h, m.u, x); }
    else if x < m.a { InSlice(t, m.u, m.a, x); }
    else if x < m.b { InSlice(t, m.a, m.b, x); }
    else {
      InSlice(t, m.b, l.p, x);
      PrintNatDigits(u.port);
    }
  }

  /** A printed Uri is never read back as one with a bracketed host. */
  lemma NotBracketed(u: UriValue, l: Layout, m: Authority)
    requires Clean(u) && HostLayout(ToString(u), l, m)
    requires l.h == |u.scheme| + 3 && l.h <= l.p <= PrintedLayout(u).p && l.p <= |ToString(u)|
    ensures !m.v6
  {
    hide ToString, HostLayout, Clean;
    BracketAt(ToString(u), l, m);
    forall x | l.h <= x < l.p ensures ToString(u)[x] != '[' { NoBracketPrinted(u, x); }
  }

  /** The host that is read back is a name. */
  lemma HostIsName(u: UriValue, f: Fields, l: Layout, m: Authority)
    requires Clean(u) && Compact(u) && Grammar(ToString(u), false, l, |ToString(u)|) && HostLayout(ToString(u), l, m)
    requires l.h == |u.scheme| + 3 && l.h < l.p <= PrintedLayout(u).p
    requires Parsed(f, l, m, |ToString(u)|) && Bounded(f, |ToString(u)|)
    ensures AllIn(Part(ToString(u), f, Host), IsHostChar)
  {
    var t := ToString(u);
    GrammarOrder(t, l);
    NotBracketed(u, l, m);
    AuthorityOrder(t, l, m);
    NameStarts(t, l, m);
    if m.u < m.a { OnlyAt(u, m.u); }
    assert m.a < 65536 && m.b - m.a < 65536;
    assert l.p <= |t|;
    PartText(t, f, l, m, Host);
    hide ToString, Grammar, HostLayout, Clean, Parsed, Bounded, Part, IsHostChar;
    Uncut(t, m.a, m.b);
    forall c | c in Part(t, f, Host) ensures IsHostChar(c) { SliceIn(t, m.a, m.b, c); }
  }

  lemma NameStarts(t: string, l: Layout, m: Authority)
    requires HostLayout(t, l, m) && l.h < l.p <= |t| && !m.v6
    ensures m.a < m.b <= |t| && AllHost(t, m.a, m.b)
    ensures if m.u < m.a then m.a == m.u + 1 && m.u < |t| && t[m.u] == '@' else m.a == l.h
  {
    hide AllNum, AllUserinfo, AllHost, HasAt;
  }

  /** A host that is not a name is not read back. */
  lemma HostWasName(u: UriValue)
    requires Clean(u) && Compact(u) && FromUrl(ToString(u)) == Made(Normal(u))
    ensures AllIn(u.host, IsHostChar)
  {
    var t := ToString(u);
    var parsed := ParseUrl(t, false);
    var f := parsed.value.fields;
    assert Schema in f && u.host == Part(t, f, Host);
    hide FromUrl, ToString, AllIn;
    var l := ScanLayout(t, false, |t|);
    SchemaField(t, l);
    SchemeEnds(u, l);
    hide Scan, Phase, Describes, HasAt, Clean, Grammar, ParseUrl, Part;
    assert AuthorityFits(l) by { hide AuthorityFits; SchemeEndFits(u, l); }
    var m := ParsedWith(t, false, l);
    HostIsName(u, f, l, m);
  }

  lemma SchemeEndFits(u: UriValue, l: Layout)
    requires Compact(u) && l.h == |u.scheme| + 3 && l.p <= PrintedLayout(u).p
    ensures AuthorityFits(l)
  {}

  lemma SchemaField(t: string, l: Layout)
    requires ParseUrl(t, false).Some? && Schema in ParseUrl(t, false).value.fields
    requires var a := Scan(t, false, |t|); Phase(t, false, a.s, l, |t|) && Describes(a.fields, l, |t|)
    ensures Grammar(t, false, l, |t|) && l.s > 0 && l.h < l.p
  {
    var a := Scan(t, false, |t|);
    EndsInGrammar(t, false, a, l);
    FirstMachineFields(t, false, Schema);
    assert Schema in a.fields <==> Start(l, Schema) < End(l, |t|, Schema);
    hide Scan, Phase, Describes, Grammar, ParseUrl;
  }

  /** A Uri made from a URL with a scheme: its host is a name or not, but it is clean and compact. */
  lemma MadeUri(url: string)
    requires |url| < 65536 && FromUrl(url).Made? && FromUrl(url).uri.scheme != ""
    ensures Clean(FromUrl(url).uri) && Compact(FromUrl(url).uri)
  {
    var u := FromUrl(url).uri;
    var l, m := CreateParts(url);
    PartsAreClean(url, l, m, u);
    PrintedLength(url);
    AuthorityLength(url, l, m, u);
    HostStarts(url, l, m, u);
    hide FromUrl, ToString, UrlIs, PartsAre, Clean, PortText;
  }

  lemma HostStarts(url: string, l: Layout, m: Authority, u: UriValue)
    requires |url| < 65536 && UrlIs(url, false, l, m) && PartsAre(url, l, m, u) && u.scheme != ""
    ensures PrintedAuthority(u).a <= m.a < 65536 && PrintedLayout(u).h == l.h && l.h < l.p < 65536
  {
    assert HeadIs(url, false, l) && l.h < l.p;
    assert AuthorityIs(url, HasAt(url, l.h, l.p), l.h, m, l.p);
    AuthorityOrder(url, l, m);
    hide Grammar, HasAt, ParseNat, AllNum, AllUserinfo, AllHost, AllAddress, AllZone;
  }

  /** For every Uri made from a URL with a scheme, reading its printed form gives the same scheme, user
      information, host, port, path (as getPath has it), query and fragment exactly when the host is a
      name, since a bracketed host is printed without its brackets, and no part is printed where its
      offset does not fit in 16 bits, unless the same text stands 65536 bytes before it. */
  lemma RoundTrip(url: string)
    requires |url| < 65536 && FromUrl(url).Made? && FromUrl(url).uri.scheme != ""
    ensures var u := FromUrl(url).uri;
      FromUrl(ToString(u)) == Made(u.(path := if u.path == "" then "/" else u.path)) <==>
        AllIn(u.host, IsHostChar) && NothingLost(u)
  {
    var u := FromUrl(url).uri;
    MadeUri(url);
    assert Normal(u) == u.(path := if u.path == "" then "/" else u.path);
    hide FromUrl, ToString, Clean, Compact, AllIn, Normal;
    if AllIn(u.host, IsHostChar) {
      if PrintedLayout(u).p < 65536 { ReadsBackExactly(u); } else { PathIsLost(u); }
    }
    if FromUrl(ToString(u)) == Made(Normal(u)) { HostWasName(u); }
  }

  /** The port in a URL is kept; without one it is the scheme's, for http, ws and https. */
  lemma PortIsKept(url: string) returns (l: Layout, m: Authority)
    requires |url| < 65536 && FromUrl(url).Made?
    ensures UrlIs(url, false, l, m) && m.c <= |url|
    ensures var u := FromUrl(url).uri;
      u.port == if m.c < l.p <= |url| then ParseNat(url[m.c..l.p])
        else if u.scheme in {"http", "ws"} then 80 else if u.scheme == "https" then 443 else 0
  {
    l, m := CreateParts(url);
    GrammarOrder(url, l) by { assert Grammar(url, false, l, |url|); }
    AuthorityOrder(url, l, m);
    hide FromUrl, UrlIs;
  }

  /** What toString prints: the parts with the delimiters of section 5.3 of RFC 3986, but always a path and, unless
      it is the default of http, ws or https, a port. */
  lemma PrintedText(u: UriValue)
    ensures var usual := (u.scheme in {"http", "ws"} && u.port == 80) || (u.scheme == "https" && u.port == 443);
      var authority := (if u.userinfo != "" then u.userinfo + "@" else "") + u.host
        + (if usual then "" else ":" + PrintInt(u.port));
      ToString(u) == u.scheme + "://" + authority + (if u.path != "" then u.path else "/")
        + (if u.query != "" then "?" + u.query else "") + (if u.fragment != "" then "#" + u.fragment else "")
  {
    assert u.userinfo + At(u) == if u.userinfo != "" then u.userinfo + "@" else "";
    assert QueryMark(u) + u.query == if u.query != "" then "?" + u.query else "";
    assert HashMark(u) + u.fragment == if u.fragment != "" then "#" + u.fragment else "";
    hide PrintInt;
    assert PortText(u) == if (u.scheme in {"http", "ws"} && u.port == 80) || (u.scheme == "https" && u.port == 443)
        then "" else ":" + PrintInt(u.port);
    Grouped(u.scheme + "://", u.userinfo, At(u), u.host, PortText(u), GetPath(u), QueryMark(u), u.query, HashMark(u),
        u.fragment);
    assert GetPath(u) == if u.path != "" then u.path else "/";
    hide At, PortText, GetPath, QueryMark, HashMark;
  }

  lemma Grouped(a: string, b: string, c: string, d: string, e: string, f: string, g: string, h: string, i: string,
          j: string)
    ensures a + b + c + d + e + f + g + h + i + j == a + (b + c + d + e) + f + (g + h) + (i + j)
  {
    assert a + b + c + d + e == a + (b + c + d + e);
  }

  /** Printing adds at most ":0" and "/": a port that has no default, and the path. */
  lemma PrintedLength(url: string)
    requires |url| < 65536 && FromUrl(url).Made? && FromUrl(url).uri.scheme != ""
    ensures |ToString(FromUrl(url).uri)| <= |url| + 3
  {
    var u := FromUrl(url).uri;
    var l, m := CreateParts(url);
    AuthorityOrder(url, l, m);
    AuthorityLength(url, l, m, u);
    TailLength(url, l, u, m);
    assert l.h == l.s + 3 by { assert HeadIs(url, false, l); }
    assert |ToString(u)| == |u.scheme| + 3 + |u.userinfo| + |At(u)| + |u.host| + |PortText(u)| + |GetPath(u)|
        + |QueryMark(u)| + |u.query| + |HashMark(u)| + |u.fragment|;
    hide ToString, UrlIs, FromUrl, At, PortText, GetPath, QueryMark, HashMark;
  }

  lemma AuthorityLength(url: string, l: Layout, m: Authority, u: UriValue)
    requires UrlIs(url, false, l, m) && PartsAre(url, l, m, u) && u.scheme != ""
    ensures |u.userinfo| + |At(u)| + |u.host| + |PortText(u)| <= l.p - l.h + 2
  {
    AuthorityOrder(url, l, m);
    assert l.h < l.p && AuthorityIs(url, HasAt(url, l.h, l.p), l.h, m, l.p);
    if m.c < l.p { PrintIsShortest(url[m.c..l.p]); }
    assert |PrintNat(0)| == 1;
    hide Grammar, HasAt, ParseNat, PrintNat, AllNum, AllUserinfo, AllHost, AllAddress, AllZone;
  }

  lemma TailLength(url: string, l: Layout, u: UriValue, m: Authority)
    requires UrlIs(url, false, l, m) && PartsAre(url, l, m, u)
    ensures |GetPath(u)| + |QueryMark(u)| + |u.query| + |HashMark(u)| + |u.fragment| <= |url| - l.p + 1
  {
    hide HostLayout, HeadIs, AllUrl, AllQuery, AllFragment, AllServer, AllHash, ParseNat;
  }

  /** So the host alone decides for every URL of at most 65532 bytes. */
  lemma RoundTripOfShortUrls(url: string)
    requires |url| <= 65532 && FromUrl(url).Made? && FromUrl(url).uri.scheme != ""
    ensures var u := FromUrl(url).uri;
      FromUrl(ToString(u)) == Made(u.(path := if u.path == "" then "/" else u.path)) <==> AllIn(u.host, IsHostChar)
  {
    PrintedLength(url);
    RoundTrip(url);
    PrintedPieces(FromUrl(url).uri);
    hide FromUrl, ToString;
  }

  /** The port that createAddress uses: the one in the URL, unless it is missing or 0. */
  lemma PortInUse(url: string) returns (l: Layout, m: Authority)
    requires |url| < 65536 && FromUrl(url).Made?
    ensures UrlIs(url, false, l, m) && m.c <= l.p <= |url|
    ensures var u := FromUrl(url).uri; var n := ParseNat(url[m.c..l.p]);
      GetPort(u) == if n != 0 then n
        else if u.scheme in {"http", "ws"} then 80
        else if u.scheme in {"https", "wss"} then 443
        else 0
  {
    l, m := CreateParts(url);
    GrammarOrder(url, l) by { assert Grammar(url, false, l, |url|); }
    AuthorityOrder(url, l, m);
    hide FromUrl, UrlIs;
    assert m.c == l.p ==> url[m.c..l.p] == "";
  }

  // ---------- longer URLs ----------

  function LongPath(): string { "/" + seq(65527, i => 'a') }

  /** A URL of 65535 bytes. */
  function LongUrl(): string { "x://h" + LongPath() + "?q" }

  const LONG := Layout(1, 4, 5, 65533, 65534, 65535, 65535)
  const LONG_HOST := Authority(4, false, 4, 5, 5, 5)

  lemma LongPathChars()
    ensures |LongPath()| == 65528 && LongPath()[0] == '/' && AllIn(LongPath(), IsUrlChar)
  {}

  lemma LongUrlTexts()
    ensures var url := LongUrl();
      && |url| == 65535 && url[..4] == "x://" && url[0..1] == "x" && url[4..5] == "h" && url[5..65533] == LongPath()
      && url[65533] == '?' && url[65534] == 'q' && url[65534..65535] == "q"
  {
    var url, path := LongUrl(), LongPath();
    assert |path| == 65528;
    hide LongPath;
    assert url == "x://h" + (path + "?q");
  }

  lemma LongUrlIsUrl()
    ensures UrlIs(LongUrl(), false, LONG, LONG_HOST)
  {
    var url := LongUrl();
    LongUrlTexts();
    LongPathChars();
    hide LongUrl, LongPath;
    assert url[0] == url[..4][0] && url[1] == url[..4][1] && url[2] == url[..4][2] && url[3] == url[..4][3];
    assert url[4] == url[4..5][0] && url[5] == url[5..65533][0];
    forall x | 5 <= x < 65533 ensures IsUrlChar(url[x]) { InSlice(url, 5, 65533, x); }
    assert HeadIs(url, false, LONG);
    assert PathIs(url, false, LONG);
    assert AllQuery(url, 65534, 65535);
    assert AllFragment(url, 65535, 65535);
    assert !HasAt(url, 4, 5) && NameIs(url, false, 4, LONG_HOST);
  }

  lemma LongUrlParsed()
    ensures |LongUrl()| == 65535 && FromUrl(LongUrl()) == Made(UriValue("x", "", "h", LongPath(), "q", "", 0))
  {
    var url := LongUrl();
    LongUrlTexts();
    LongUrlIsUrl();
    hide LongUrl, LongPath, UrlIs, FromUrl;
    CreateExact(url, LONG, LONG_HOST);
  }

  /** The bound of RoundTripOfShortUrls is not a matter of the proof: a URL of 65535 bytes whose host is a
      name, and whose query "q" is read back as "x", the text at offset 0. */
  lemma LongUrlLosesQuery()
    ensures |LongUrl()| < 65536 && FromUrl(LongUrl()).Made? && FromUrl(LongUrl()).uri.query == "q"
    ensures AllIn(FromUrl(LongUrl()).uri.host, IsHostChar)
    ensures var again := FromUrl(ToString(FromUrl(LongUrl()).uri));
      again.Made? && again.uri.query == "x"
  {
    LongUrlParsed();
    var u := UriValue("x", "", "h", LongPath(), "q", "", 0);
    LongPathChars();
    assert PrintNat(0) == "0";
    hide LongUrl, LongPath, FromUrl, ToString, PrintNat;
    assert u == FromUrl(LongUrl()).uri;
    MadeUri(LongUrl());
    var t, l := ToString(u), PrintedLayout(u);
    assert l.p == 7 && l.r == 65536 && l.f == 65537;
    PrintedPieces(u);
    assert t[0..1] == u.scheme;
    ReadsBackCut(u);
    assert CutText(t, l.r, l.f) == t[0..1];
  }
}
