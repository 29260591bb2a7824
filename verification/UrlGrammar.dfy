/** The other direction: every text of the grammar is parsed, into its parts. */
module UrlGrammar {
  import opened Decimals
  import opened Numbers
  import opened Wrappers
  import opened UrlParser
  import opened UrlProperties

  /** The layout of the first x characters. */
  function Cut(l: Layout, x: nat): Layout {
    Layout(Min(l.s, x), Min(l.h, x), Min(l.p, x), Min(l.q, x), Min(l.r, x), Min(l.f, x), Min(l.g, x))
  }

  /** The state of the machine after x characters. */
  function StateAt(buf: string, connect: bool, l: Layout, x: nat): UrlState
    requires x <= |buf|
  {
    if x == 0 then (if connect then ServerStart else SpacesBeforeUrl)
    else if x <= l.s then InSchema
    else if x < l.h then (if x == l.s + 1 then SchemaSlash else SchemaSlashSlash)
    else if x == l.h then ServerStart
    else if x <= l.p then (if buf[x - 1] == '@' then ServerWithAt else InServer)
    else if x <= l.q then InPath
    else if x <= l.r then QueryStart
    else if x <= l.f then InQuery
    else if x <= l.g then FragmentStart
    else InFragment
  }

  ghost predicate OneAt(buf: string, i: nat, j: nat) {
    forall x, y :: i <= x < j <= |buf| && i <= y < j && buf[x] == '@' && buf[y] == '@' ==> x == y
  }

  lemma StateFollows(buf: string, connect: bool, l: Layout, x: nat)
    requires Grammar(buf, connect, l, |buf|) && OneAt(buf, l.h, l.p) && x < |buf|
    ensures ParseUrlChar(StateAt(buf, connect, l, x), buf[x]) == StateAt(buf, connect, l, x + 1)
  {
    if x < l.p { HeadFollows(buf, connect, l, x); } else { TailFollows(buf, connect, l, x); }
  }

  lemma HeadFollows(buf: string, connect: bool, l: Layout, x: nat)
    requires Grammar(buf, connect, l, |buf|) && OneAt(buf, l.h, l.p) && x < |buf| && x < l.p
    ensures ParseUrlChar(StateAt(buf, connect, l, x), buf[x]) == StateAt(buf, connect, l, x + 1)
  {
    hide AllUrl, AllQuery, AllHash, AllFragment, IsUrlChar;
  }

  lemma TailFollows(buf: string, connect: bool, l: Layout, x: nat)
    requires Grammar(buf, connect, l, |buf|) && l.p <= x < |buf|
    ensures ParseUrlChar(StateAt(buf, connect, l, x), buf[x]) == StateAt(buf, connect, l, x + 1)
  {
    hide AllServer, AllAlpha;
  }

  lemma CutGrows(buf: string, connect: bool, l: Layout, x: nat)
    requires Grammar(buf, connect, l, |buf|) && x < |buf|
    ensures Parts(StateAt(buf, connect, l, x), Cut(l, x), x)
    ensures Grown(Cut(l, x), StateAt(buf, connect, l, x + 1), x + 1) == Cut(l, x + 1)
  {
    hide PathIs, AllAlpha, AllQuery, AllFragment;
  }

  lemma StateLives(buf: string, connect: bool, l: Layout, x: nat)
    requires x <= |buf|
    ensures !StateAt(buf, connect, l, x).Dead?
  {}

  /** The machine on a text of the grammar: its state, its fields, and whether it has seen an '@'. */
  lemma {:induction false} ScanIs(buf: string, connect: bool, l: Layout, x: nat)
    requires Grammar(buf, connect, l, |buf|) && OneAt(buf, l.h, l.p) && x <= |buf|
    ensures var a := Scan(buf, connect, x);
      && a.s == StateAt(buf, connect, l, x) && Describes(a.fields, Cut(l, x), x) && LastIs(a.s, a.last)
      && (a.at <==> HasAt(buf, Cut(l, x).h, Cut(l, x).p))
    decreases x
  {
    hide Grammar, Describes, HasAt, StateAt, Grown, Parts, LastIs, ParseUrlChar;
    if x == 0 {
      ScanStarts(buf, connect, l);
    } else {
      var b := Scan(buf, connect, x - 1);
      ScanIs(buf, connect, l, x - 1);
      StateFollows(buf, connect, l, x - 1);
      CutGrows(buf, connect, l, x - 1);
      StateLives(buf, connect, l, x);
      hide Cut;
      GrownFields(b, Cut(l, x - 1), buf[x - 1], x - 1);
      AtGrows(buf, connect, l, x - 1);
      NextIs(b, buf[x - 1], x - 1);
      hide Next;
    }
  }

  lemma ScanStarts(buf: string, connect: bool, l: Layout)
    requires Grammar(buf, connect, l, |buf|)
    ensures var a := Scan(buf, connect, 0);
      && a.s == StateAt(buf, connect, l, 0) && Describes(a.fields, Cut(l, 0), 0) && LastIs(a.s, a.last)
      && (a.at <==> HasAt(buf, Cut(l, 0).h, Cut(l, 0).p))
  {}

  lemma NextIs(b: Loop, c: char, k: nat)
    ensures var st := ParseUrlChar(b.s, c);
      !st.Dead? ==> Next(b, c, k).s == st && (Next(b, c, k).at <==> b.at || st.ServerWithAt?)
  {}

  lemma AtGrows(buf: string, connect: bool, l: Layout, x: nat)
    requires Grammar(buf, connect, l, |buf|) && OneAt(buf, l.h, l.p) && x < |buf|
    ensures (HasAt(buf, Cut(l, x).h, Cut(l, x).p) || StateAt(buf, connect, l, x + 1).ServerWithAt?)
      <==> HasAt(buf, Cut(l, x + 1).h, Cut(l, x + 1).p)
  {
    var st := StateAt(buf, connect, l, x);
    StateFollows(buf, connect, l, x);
    StateLives(buf, connect, l, x + 1);
    CutGrows(buf, connect, l, x);
    assert st.SpacesBeforeUrl? ==> x == 0;
    hide HasAt, Grammar, Cut, StateAt, Grown, Parts, ParseUrlChar;
    GrownAt(buf, connect, st, Cut(l, x), x);
  }

  // ---------- the authority ----------

  /** Where the host or its bracket starts. */
  function HostHead(m: Authority): int { if m.v6 then m.a - 1 else m.a }

  function HostStateAt(at: bool, h: nat, m: Authority, x: nat): HostState {
    if x == h then (if at then UserinfoStart else HostStart)
    else if x <= m.u then InUserinfo
    else if x == HostHead(m) then HostStart
    else if x <= m.a then V6Start
    else if !m.v6 && x <= m.b then InHost
    else if m.v6 && x <= m.z then InV6
    else if m.v6 && x <= m.b then (if x == m.z + 1 then ZoneStart else InZone)
    else if m.v6 && x == m.b + 1 then V6End
    else if x <= m.c then PortStart
    else InPort
  }

  /** The fields of the second machine after x characters of an authority. */
  ghost predicate FieldsAt(fields: Fields, h: nat, m: Authority, x: nat) {
    HostAt(fields, h, m, x) && UserinfoAt(fields, h, m, x) && PortAt(fields, m, x)
  }

  predicate HostAt(fields: Fields, h: nat, m: Authority, x: nat) {
    Host in fields && m.a <= m.b && fields[Host] == if x <= m.a then Range(h, 0) else Cut16(m.a, Min(m.b, x))
  }

  predicate UserinfoAt(fields: Fields, h: nat, m: Authority, x: nat) {
    (Userinfo in fields <==> h < Min(m.u, x)) && (Userinfo in fields ==> fields[Userinfo] == Cut16(h, Min(m.u, x)))
  }

  predicate PortAt(fields: Fields, m: Authority, x: nat) {
    (Port in fields <==> m.c < x) && (Port in fields ==> fields[Port] == Cut16(m.c, x))
  }

  lemma HostStateFollows(buf: string, at: bool, h: nat, m: Authority, k: nat, x: nat)
    requires AuthorityIs(buf, at, h, m, k) && h <= x < k
    ensures ParseHostChar(HostStateAt(at, h, m, x), buf[x]) == HostStateAt(at, h, m, x + 1)
  {
    assert !IsHostChar(':') && !IsHostChar('[') && !IsHex(']') && !IsHex('%') && !IsZoneChar(']');
    hide IsHostChar, IsHex, IsUserinfoChar, IsZoneChar, IsDigit;
  }

  /** The order of the parts of an authority, as far as the entries depend on it. */
  predicate Bounds(at: bool, h: nat, m: Authority, k: nat) {
    && h <= m.u <= HostHead(m) <= m.a < m.b <= m.c <= k && (at <==> m.u < HostHead(m))
    && (m.v6 ==> m.a < m.z <= m.b && m.b != m.z + 1)
    && (m.c < k ==> m.c == if m.v6 then m.b + 2 else m.b + 1)
    && (m.c == k ==> m.c == if m.v6 then m.b + 1 else m.b)
  }

  lemma HostEntryFollows(at: bool, b: HostLoop, c: char, h: nat, m: Authority, k: nat, x: nat)
    requires Bounds(at, h, m, k) && h <= x < k && b.s == HostStateAt(at, h, m, x) && HostAt(b.fields, h, m, x)
    requires ParseHostChar(b.s, c) == HostStateAt(at, h, m, x + 1)
    ensures HostAt(HostNext(b, c, x).fields, h, m, x + 1)
  {
    if m.a <= x { U16Next(x - m.a); }
    hide ParseHostChar, U16;
  }

  lemma UserinfoEntryFollows(at: bool, b: HostLoop, c: char, h: nat, m: Authority, k: nat, x: nat)
    requires Bounds(at, h, m, k) && h <= x < k && b.s == HostStateAt(at, h, m, x) && Host in b.fields
    requires UserinfoAt(b.fields, h, m, x) && ParseHostChar(b.s, c) == HostStateAt(at, h, m, x + 1)
    ensures UserinfoAt(HostNext(b, c, x).fields, h, m, x + 1)
  {
    U16Next(x - h);
    hide ParseHostChar, U16;
  }

  lemma PortEntryFollows(at: bool, b: HostLoop, c: char, h: nat, m: Authority, k: nat, x: nat)
    requires Bounds(at, h, m, k) && h <= x < k && b.s == HostStateAt(at, h, m, x) && Host in b.fields
    requires PortAt(b.fields, m, x) && ParseHostChar(b.s, c) == HostStateAt(at, h, m, x + 1)
    ensures PortAt(HostNext(b, c, x).fields, m, x + 1)
  {
    if m.c <= x { U16Next(x - m.c); }
    hide ParseHostChar, U16;
  }

  lemma FieldsGrow(buf: string, at: bool, b: HostLoop, h: nat, m: Authority, k: nat, x: nat)
    requires AuthorityIs(buf, at, h, m, k) && h <= x < k && b.s == HostStateAt(at, h, m, x)
    requires FieldsAt(b.fields, h, m, x)
    ensures HostNext(b, buf[x], x).s == HostStateAt(at, h, m, x + 1)
    ensures FieldsAt(HostNext(b, buf[x], x).fields, h, m, x + 1)
  {
    HostStateFollows(buf, at, h, m, k, x);
    AuthorityBounds(buf, at, h, m, k);
    HostNextState(b, buf[x], x);
    hide ParseHostChar, AuthorityIs, HostStateAt, HostNext, UserinfoAt, PortAt, Bounds;
    HostEntryFollows(at, b, buf[x], h, m, k, x);
    UserinfoEntryFollows(at, b, buf[x], h, m, k, x);
    PortEntryFollows(at, b, buf[x], h, m, k, x);
  }

  lemma AuthorityBounds(buf: string, at: bool, h: nat, m: Authority, k: nat)
    requires AuthorityIs(buf, at, h, m, k)
    ensures Bounds(at, h, m, k)
  {
    hide AllUserinfo, AllHost, AllNum, AllAddress, AllZone;
  }

  lemma {:induction false} HostScanIs(buf: string, at: bool, fields: Fields, h: nat, m: Authority, k: nat, x: nat)
    requires AuthorityIs(buf, at, h, m, k) && h <= x <= k
    requires Host in fields && fields[Host] == Range(h, 0) && Port !in fields && Userinfo !in fields
    ensures var b := HostScan(buf, at, fields, h, x);
      b.s == HostStateAt(at, h, m, x) && FieldsAt(b.fields, h, m, x)
    decreases x
  {
    if x > h {
      HostScanIs(buf, at, fields, h, m, k, x - 1);
      FieldsGrow(buf, at, HostScan(buf, at, fields, h, x - 1), h, m, k, x - 1);
      hide HostNext, HostStateAt, FieldsAt;
    }
  }

  lemma AtOnce(buf: string, at: bool, h: nat, m: Authority, k: nat)
    requires AuthorityIs(buf, at, h, m, k)
    ensures OneAt(buf, h, k)
  {
    assert forall x :: h <= x < k && buf[x] == '@' ==> x == m.u;
  }

  // ---------- the whole parser ----------

  /** The port is 65535 at most, and after CONNECT there is a host and a port and nothing else. */
  ghost predicate UrlIs(buf: string, connect: bool, l: Layout, m: Authority) {
    && buf != "" && Grammar(buf, connect, l, |buf|) && HostLayout(buf, l, m) && (l.s > 0 ==> l.h < l.p)
    && (m.c < l.p ==> ParseNat(buf[m.c..l.p]) <= 65535)
    && (connect ==> forall uf :: PartStart(l, m, uf) < PartEnd(l, m, |buf|, uf) <==> uf in {Host, Port})
  }

  lemma AuthorityParsed(buf: string, at: bool, fields: Fields, l: Layout, m: Authority, k: nat)
    requires |buf| == k && Describes(fields, l, k) && l.h < l.p <= k && AuthorityIs(buf, at, l.h, m, l.p)
    requires AuthorityFits(l)
    requires Bounded(fields, k) && Port !in fields && Userinfo !in fields
    ensures Host in fields && ParseHost(buf, at, fields).Some? && Parsed(ParseHost(buf, at, fields).value, l, m, k)
  {
    hide HostScan, AuthorityIs, HostStateAt, Describes, Parsed, FieldsAt, BeforeHost, Bounded, AuthorityFits, Cut16;
    hide Start, End;
    HostEntryIs(fields, l, k);
    var start := fields[Host := Range(l.h, 0)];
    HostScanIs(buf, at, start, l.h, m, l.p, l.p);
    HostScanKeeps(buf, at, start, l.h, l.p);
    EndState(buf, at, l.h, m, l.p);
    FieldsParsed(fields, HostScan(buf, at, start, l.h, l.p).fields, l, m, k);
  }

  lemma FieldsParsed(fields: Fields, f: Fields, l: Layout, m: Authority, k: nat)
    requires Describes(fields, l, k) && FieldsAt(f, l.h, m, l.p) && m.u <= m.a < m.b <= m.c <= l.p
    requires forall uf :: uf !in {Host, Port, Userinfo} ==>
      (uf in f <==> uf in fields) && (uf in f ==> f[uf] == fields[uf])
    ensures Parsed(f, l, m, k)
  {
    hide Cut16;
    forall uf
      ensures uf in f <==> PartStart(l, m, uf) < PartEnd(l, m, k, uf)
      ensures uf in f ==> f[uf] == Cut16(PartStart(l, m, uf), PartEnd(l, m, k, uf))
    {
      if uf !in {Host, Port, Userinfo} { assert uf in fields <==> Start(l, uf) < End(l, k, uf); }
    }
  }

  lemma EndState(buf: string, at: bool, h: nat, m: Authority, k: nat)
    requires AuthorityIs(buf, at, h, m, k)
    ensures var s := HostStateAt(at, h, m, k); s.InHost? || s.V6End? || s.InPort?
    ensures h <= m.u <= m.a < m.b <= m.c <= k && (m.b == m.c ==> m.c == k)
  {}

  lemma NoAuthority(fields: Fields, l: Layout, k: nat)
    requires Describes(fields, l, k) && l.h == l.p
    ensures Host !in fields && Parsed(fields, l, Authority(l.p, false, l.p, l.p, l.p, l.p), k)
  {
    assert Start(l, Host) >= End(l, k, Host);
  }

  lemma WholeScan(buf: string, connect: bool, l: Layout, m: Authority)
    requires Grammar(buf, connect, l, |buf|) && HostLayout(buf, l, m)
    ensures var a := Scan(buf, connect, |buf|);
      !a.s.Dead? && Describes(a.fields, l, |buf|) && (l.h < l.p ==> (a.at <==> HasAt(buf, l.h, l.p)))
  {
    if l.h < l.p { AtOnce(buf, HasAt(buf, l.h, l.p), l.h, m, l.p); }
    assert OneAt(buf, l.h, l.p);
    assert Cut(l, |buf|) == l;
    hide HasAt, HostLayout, OneAt;
    ScanIs(buf, connect, l, |buf|);
    StateLives(buf, connect, l, |buf|);
  }

  /** Both machines on a text of the grammar. */
  lemma BothMachines(buf: string, connect: bool, l: Layout, m: Authority) returns (f: Fields)
    requires Grammar(buf, connect, l, |buf|) && HostLayout(buf, l, m) && (l.s > 0 ==> l.h < l.p) && AuthorityFits(l)
    ensures l.p <= |buf|
    ensures var a := Scan(buf, connect, |buf|);
      && !a.s.Dead? && (Schema in a.fields ==> Host in a.fields) && Parsed(f, l, m, |buf|)
      && (if Host in a.fields then ParseHost(buf, a.at, a.fields) == Some(f) else f == a.fields)
  {
    var a := Scan(buf, connect, |buf|);
    WholeScan(buf, connect, l, m);
    assert l.h <= l.p <= |buf| by { hide HostLayout; }
    hide Scan, Grammar, Parsed, ParseHost;
    assert Schema in a.fields <==> Start(l, Schema) < End(l, |buf|, Schema);
    hide Describes;
    if l.h < l.p {
      AuthorityParsed(buf, a.at, a.fields, l, m, |buf|);
      f := ParseHost(buf, a.at, a.fields).value;
    } else {
      NoAuthority(a.fields, l, |buf|);
      f := a.fields;
    }
  }

  /** Where the entries of the authority and of the port are not cut. */
  predicate PortFits(l: Layout, m: Authority) {
    AuthorityFits(l) && (m.c < l.p ==> m.c < 65536)
  }

  /** A text of the grammar, of any length, is parsed into its parts, cut to 16 bits. */
  lemma GrammarIsParsed(buf: string, connect: bool, l: Layout, m: Authority)
    requires UrlIs(buf, connect, l, m) && PortFits(l, m)
    ensures ParseUrl(buf, connect).Some? && Parsed(ParseUrl(buf, connect).value.fields, l, m, |buf|)
  {
    AuthorityBegins(buf, l, m);
    hide Scan, ParseHost, Grammar, HostLayout, PartStart, PartEnd, ParseNat;
    var f := BothMachines(buf, connect, l, m);
    PortIs(buf, l, m, f);
    OnlyHostAndPort(buf, connect, l, m, f);
    hide Parsed, PortValue;
  }

  lemma AuthorityBegins(buf: string, l: Layout, m: Authority)
    requires HostLayout(buf, l, m) && l.h <= l.p
    ensures l.h <= m.c <= l.p
  {
    AuthorityOrder(buf, l, m);
    hide HostLayout;
  }

  lemma PortIs(buf: string, l: Layout, m: Authority, f: Fields)
    requires Parsed(f, l, m, |buf|) && HostLayout(buf, l, m) && l.h <= m.c <= l.p <= |buf| && PortFits(l, m)
    requires m.c < l.p ==> ParseNat(buf[m.c..l.p]) <= 65535
    ensures Port in f <==> m.c < l.p
    ensures Port in f ==> f[Port].off + f[Port].len <= |buf| && Text(buf, f[Port]) == buf[m.c..l.p]
    ensures Port in f ==> PortValue(Text(buf, f[Port])) == Some(ParseNat(buf[m.c..l.p]))
  {
    assert Port in f <==> PartStart(l, m, Port) < PartEnd(l, m, |buf|, Port);
    assert Port in f ==> f[Port] == Cut16(m.c, l.p) == Range(m.c, l.p - m.c);
    hide Parsed, HostLayout, ParseNat;
    if Port in f {
      var text := buf[m.c..l.p];
      forall i | 0 <= i < |text| ensures IsDigit(text[i]) { PortDigits(buf, l, m, m.c + i); }
      PortValueOfDigits(text);
    }
  }

  lemma OnlyHostAndPort(buf: string, connect: bool, l: Layout, m: Authority, f: Fields)
    requires UrlIs(buf, connect, l, m) && Parsed(f, l, m, |buf|)
    ensures connect ==> f.Keys == {Host, Port}
  {
    hide Grammar, HostLayout, PartStart, PartEnd;
  }

  /** The second machine leaves the other fields alone. */
  lemma FirstMachineFields(buf: string, connect: bool, uf: Field)
    requires ParseUrl(buf, connect).Some? && uf !in {Host, Port, Userinfo}
    ensures var f, g := Scan(buf, connect, |buf|).fields, ParseUrl(buf, connect).value.fields;
      (uf in f <==> uf in g) && (uf in f ==> f[uf] == g[uf])
  {
    hide Scan, ParseHost, PortValue, Text;
    var a := Scan(buf, connect, |buf|);
    if Host in a.fields { HostLeavesFields(buf, a.at, a.fields, uf); }
  }

  lemma HostLeavesFields(buf: string, at: bool, fields: Fields, uf: Field)
    requires Host in fields && Port !in fields && Userinfo !in fields && Bounded(fields, |buf|)
    requires uf !in {Host, Port, Userinfo}
    ensures var g := ParseHost(buf, at, fields);
      g.Some? ==> (uf in fields <==> uf in g.value) && (uf in fields ==> fields[uf] == g.value[uf])
  {
    var r := fields[Host];
    hide HostScan;
    HostScanKeeps(buf, at, fields[Host := Range(r.off, 0)], r.off, r.off + r.len);
  }

  lemma OtherFields(buf: string, connect: bool, l: Layout, m: Authority, uf: Field)
    requires Grammar(buf, connect, l, |buf|) && HostLayout(buf, l, m)
    requires ParseUrl(buf, connect).Some? && uf !in {Host, Port, Userinfo}
    ensures var f := ParseUrl(buf, connect).value.fields;
      && (uf in f <==> Start(l, uf) < End(l, |buf|, uf))
      && (uf in f ==> f[uf] == Cut16(Start(l, uf), End(l, |buf|, uf)))
  {
    WholeScan(buf, connect, l, m);
    FirstMachineFields(buf, connect, uf);
    hide ParseUrl, Scan, Grammar, HostLayout;
  }

  /** Below 65536 bytes everything fits. */
  lemma ShortFits(buf: string, connect: bool, l: Layout, m: Authority)
    requires |buf| < 65536 && Grammar(buf, connect, l, |buf|)
    ensures PortFits(l, m)
  {
    hide HeadIs, PathIs;
  }

  /** The parser accepts exactly the texts of the grammar, and finds exactly their parts. */
  lemma ParsesExactlyTheGrammar(buf: string, connect: bool)
    requires |buf| < 65536
    ensures ParseUrl(buf, connect).Some? <==> exists l, m :: UrlIs(buf, connect, l, m)
    ensures forall l, m :: UrlIs(buf, connect, l, m) ==>
      ParseUrl(buf, connect).Some? && ParsedExactly(ParseUrl(buf, connect).value.fields, l, m, |buf|)
  {
    hide ParseUrl, Grammar, HostLayout, Parsed, ParsedExactly, PortFits;
    forall l, m | UrlIs(buf, connect, l, m)
      ensures ParseUrl(buf, connect).Some? && ParsedExactly(ParseUrl(buf, connect).value.fields, l, m, |buf|)
    {
      ShortFits(buf, connect, l, m);
      GrammarIsParsed(buf, connect, l, m);
      NothingCut(buf, connect, ParseUrl(buf, connect).value.fields, l, m);
    }
    if ParseUrl(buf, connect).Some? {
      var l, m := ParsedLayout(buf, connect);
      ParsedIsUrl(buf, connect, l, m);
    }
  }

  lemma ParsedIsUrl(buf: string, connect: bool, l: Layout, m: Authority)
    requires |buf| < 65536 && ParseUrl(buf, connect).Some? && Parsed(ParseUrl(buf, connect).value.fields, l, m, |buf|)
    requires Grammar(buf, connect, l, |buf|) && HostLayout(buf, l, m) && (l.s > 0 ==> l.h < l.p)
    ensures UrlIs(buf, connect, l, m)
  {
    var f := ParseUrl(buf, connect).value.fields;
    NothingCut(buf, connect, f, l, m);
    PortIsDecimal(buf, connect, l, m);
    assert Port in f <==> PartStart(l, m, Port) < PartEnd(l, m, |buf|, Port);
    assert buf != "" && (connect ==> f.Keys == {Host, Port}) by { hide Scan, ParseHost; }
    assert forall uf :: uf in f <==> uf in f.Keys;
    hide ParseUrl, Grammar, HostLayout, ParseNat, PartStart, PartEnd, Text;
  }
}
