/** What the ranges of a parsed URL are. */
module UrlProperties {
  import opened Decimals
  import opened Wrappers
  import opened UrlParser

  // ---------- the characters ----------

  const AM := "ABCDEFGHIJKLM"
  const NZ := "NOPQRSTUVWXYZ"
  const LOWER_AM := "abcdefghijklm"
  const LOWER_NZ := "nopqrstuvwxyz"
  const DIGITS := "0123456789"

  predicate IsLetter(c: char) { c in AM || c in NZ || c in LOWER_AM || c in LOWER_NZ }

  lemma Capitals(c: char)
    ensures 'A' <= c <= 'Z' <==> c in AM || c in NZ
  {
    var n := c as int;
    if 65 <= n < 78 { assert AM[n - 65] == c; }
    if 78 <= n < 91 { assert NZ[n - 78] == c; }
  }

  lemma SmallLetters(c: char)
    ensures 'a' <= c <= 'z' <==> c in LOWER_AM || c in LOWER_NZ
  {
    var n := c as int;
    if 97 <= n < 110 { assert LOWER_AM[n - 97] == c; }
    if 110 <= n < 123 { assert LOWER_NZ[n - 110] == c; }
  }

  lemma DigitsAre(c: char)
    ensures IsDigit(c) <==> c in DIGITS
  {
    if IsDigit(c) { assert DIGITS[c as int - 48] == c; }
  }

  /** The classes, character by character: what sections 2.2, 2.3 and 3.2 of RFC 3986 call unreserved and reserved,
      and in a path, a query or a fragment every other visible ASCII character as well. */
  lemma CharacterClasses(c: char)
    ensures IsUrlChar(c) <==> IsLetter(c) || c in DIGITS || c in "-._~:/@!$&'()*+,;=[]" || c in "\"%<>\\^`{|}"
    ensures IsUserinfoChar(c) <==> IsLetter(c) || c in DIGITS || c in "-._~!*'()%;:&=+$,"
    ensures IsHostChar(c) <==> IsLetter(c) || c in DIGITS || c in "-."
    ensures IsZoneChar(c) <==> IsLetter(c) || c in DIGITS || c in "-._~%"
    ensures IsHex(c) <==> c in DIGITS || c in "abcdefABCDEF"
  {
    Capitals(c);
    SmallLetters(c);
    DigitsAre(c);
    assert IsLetter(c) <==> IsAlpha(c);
    hide IsLetter;
    OtherUrlChars(c);
    hide IsUrlChar;
  }

  lemma OtherUrlChars(c: char)
    ensures IsUrlChar(c) <==> IsAlphanum(c) || c in "-._~:/@!$&'()*+,;=[]" || c in "\"%<>\\^`{|}"
  {}

  // ---------- the first machine ----------

  predicate IsServerChar(c: char) { IsUserinfoChar(c) || c == '[' || c == ']' || c == '@' }
  predicate IsQueryChar(c: char) { IsUrlChar(c) || c == '?' }
  predicate IsFragmentChar(c: char) { IsUrlChar(c) || c == '?' || c == '#' }

  ghost predicate AllAlpha(buf: string, i: nat, j: nat) { forall x :: i <= x < j <= |buf| ==> IsAlpha(buf[x]) }
  ghost predicate AllServer(buf: string, i: nat, j: nat) { forall x :: i <= x < j <= |buf| ==> IsServerChar(buf[x]) }
  ghost predicate AllUrl(buf: string, i: nat, j: nat) { forall x :: i <= x < j <= |buf| ==> IsUrlChar(buf[x]) }
  ghost predicate AllQuery(buf: string, i: nat, j: nat) { forall x :: i <= x < j <= |buf| ==> IsQueryChar(buf[x]) }
  ghost predicate AllFragment(buf: string, i: nat, j: nat) {
    forall x :: i <= x < j <= |buf| ==> IsFragmentChar(buf[x])
  }
  ghost predicate AllHash(buf: string, i: nat, j: nat) { forall x :: i <= x < j <= |buf| ==> buf[x] == '#' }
  ghost predicate HasAt(buf: string, i: nat, j: nat) { exists x :: i <= x < j <= |buf| && buf[x] == '@' }

  /** The scheme is [0, s), the authority [h, p), the path [p, q), the query [r, f), the fragment [g, end). */
  datatype Layout = Layout(s: nat, h: nat, p: nat, q: nat, r: nat, f: nat, g: nat)

  function Start(l: Layout, uf: Field): nat {
    match uf
    case Schema => 0
    case Host => l.h
    case Path => l.p
    case Query => l.r
    case Fragment => l.g
    case _ => 0
  }

  function End(l: Layout, k: nat, uf: Field): nat {
    match uf
    case Schema => l.s
    case Host => l.p
    case Path => l.q
    case Query => l.f
    case Fragment => k
    case _ => 0
  }

  /** A field is set when its part is not empty, and then it is that part, cut to 16 bits. */
  ghost predicate Describes(fields: Fields, l: Layout, k: nat) {
    forall uf ::
      && (uf in fields <==> Start(l, uf) < End(l, k, uf))
      && (uf in fields ==> fields[uf] == Cut16(Start(l, uf), End(l, k, uf)))
  }

  /** A URL starts with a scheme and "://", or with its path; after CONNECT, with the authority. */
  ghost predicate HeadIs(buf: string, connect: bool, l: Layout) {
    if connect then l.s == 0 && l.h == 0
    else if l.s == 0 then l.h == 0 && l.p == 0
    else
      && AllAlpha(buf, 0, l.s) && l.h == l.s + 3 <= |buf|
      && buf[l.s] == ':' && buf[l.s + 1] == '/' && buf[l.s + 2] == '/'
  }

  ghost predicate PathIs(buf: string, connect: bool, l: Layout) {
    && AllServer(buf, l.h, l.p)
    && (l.p < l.q <= |buf| ==> (buf[l.p] == '/' || (!connect && l.s == 0 && buf[l.p] == '*')) && AllUrl(buf, l.p, l.q))
  }

  /** The layout of a whole URL. */
  ghost predicate Grammar(buf: string, connect: bool, l: Layout, k: nat) {
    && l.s <= l.h <= l.p <= l.q <= l.r <= l.f <= l.g <= k <= |buf|
    && HeadIs(buf, connect, l) && PathIs(buf, connect, l) && (connect || l.s > 0 || l.p < l.q)
    && (if l.r == l.q then l.f == l.r else l.r == l.q + 1 && buf[l.q] == '?' && AllQuery(buf, l.r, l.f))
    && (l.f < l.g ==> AllHash(buf, l.f, l.g) && AllFragment(buf, l.g, k) && (l.p < l.q || l.q < l.r))
    && (l.f == l.g ==> l.g == k)
    && (l.g < k ==> buf[l.g] != '#')
  }

  /** What the machine has seen of a URL when it is in a state. */
  ghost predicate Phase(buf: string, connect: bool, st: UrlState, l: Layout, k: nat)
    requires k <= |buf|
  {
    match st
    case SpacesBeforeUrl => k == 0 && !connect && l == Layout(0, 0, 0, 0, 0, 0, 0)
    case InSchema => k > 0 && !connect && l == Layout(k, k, k, k, k, k, k) && AllAlpha(buf, 0, k)
    case SchemaSlash => k > 1 && !connect && l == Layout(k - 1, k, k, k, k, k, k) && AllAlpha(buf, 0, k - 1)
        && buf[k - 1] == ':'
    case SchemaSlashSlash => k > 2 && !connect && l == Layout(k - 2, k, k, k, k, k, k) && AllAlpha(buf, 0, k - 2)
      && buf[k - 2] == ':' && buf[k - 1] == '/'
    case ServerStart => l == Layout(l.s, k, k, k, k, k, k) && HeadIs(buf, connect, l) && (connect || l.s > 0)
    case InServer => l == Layout(l.s, l.h, k, k, k, k, k) && l.h < k && HeadIs(buf, connect, l)
        && AllServer(buf, l.h, k)
    case ServerWithAt => l == Layout(l.s, l.h, k, k, k, k, k) && l.h < k && HeadIs(buf, connect, l)
        && AllServer(buf, l.h, k)
    case InPath => l.p < l.q == k && Grammar(buf, connect, l, k) && l.r == k
    case QueryStart => l.q < l.r == k && Grammar(buf, connect, l, k)
    case InQuery => l.r < l.f == k && Grammar(buf, connect, l, k)
    case FragmentStart => l.f < l.g == k && Grammar(buf, connect, l, k)
    case InFragment => l.g < k && Grammar(buf, connect, l, k)
    case Dead => false
  }

  predicate LastIs(st: UrlState, last: Option<Field>) {
    match st
    case SpacesBeforeUrl => last == None
    case SchemaSlash => last == Some(Schema)
    case SchemaSlashSlash => last == Some(Schema)
    case ServerStart => last == None || last == Some(Schema)
    case QueryStart => last != Some(Query) && last != Some(Fragment)
    case FragmentStart => last != Some(Fragment)
    case _ => last == FieldOf(st)
  }

  /** The layout after one more character. */
  function Grown(l: Layout, st: UrlState, k: nat): Layout {
    match st
    case SpacesBeforeUrl => l
    case InSchema => Layout(k, k, k, k, k, k, k)
    case SchemaSlash => Layout(l.s, k, k, k, k, k, k)
    case SchemaSlashSlash => Layout(l.s, k, k, k, k, k, k)
    case ServerStart => Layout(l.s, k, k, k, k, k, k)
    case InServer => Layout(l.s, l.h, k, k, k, k, k)
    case ServerWithAt => Layout(l.s, l.h, k, k, k, k, k)
    case InPath => Layout(l.s, l.h, l.p, k, k, k, k)
    case QueryStart => Layout(l.s, l.h, l.p, l.q, k, k, k)
    case InQuery => Layout(l.s, l.h, l.p, l.q, l.r, k, k)
    case FragmentStart => Layout(l.s, l.h, l.p, l.q, l.r, l.f, k)
    case InFragment => l
    case Dead => l
  }

  predicate Before(st: UrlState) {
    st.SpacesBeforeUrl? || st.InSchema? || st.SchemaSlash? || st.SchemaSlashSlash?
  }

  predicate AtServer(st: UrlState) { st.ServerStart? || st.InServer? || st.ServerWithAt? }

  lemma GrownSchema(buf: string, connect: bool, st: UrlState, l: Layout, k: nat)
    requires k < |buf| && Phase(buf, connect, st, l, k) && !ParseUrlChar(st, buf[k]).Dead? && Before(st)
    ensures Phase(buf, connect, ParseUrlChar(st, buf[k]), Grown(l, ParseUrlChar(st, buf[k]), k + 1), k + 1)
  {
    assert IsUrlChar('/') && IsUrlChar('*');
    hide IsUserinfoChar, IsUrlChar, AllServer, AllQuery, AllFragment, AllHash;
  }

  lemma GrownServer(buf: string, connect: bool, st: UrlState, l: Layout, k: nat)
    requires k < |buf| && Phase(buf, connect, st, l, k) && !ParseUrlChar(st, buf[k]).Dead? && AtServer(st)
    ensures Phase(buf, connect, ParseUrlChar(st, buf[k]), Grown(l, ParseUrlChar(st, buf[k]), k + 1), k + 1)
  {
    assert IsUrlChar('/');
    hide IsUserinfoChar, IsUrlChar, IsAlpha;
  }

  lemma GrownTail(buf: string, connect: bool, st: UrlState, l: Layout, k: nat)
    requires k < |buf| && Phase(buf, connect, st, l, k) && !ParseUrlChar(st, buf[k]).Dead? && !Before(st)
    requires !AtServer(st)
    ensures Phase(buf, connect, ParseUrlChar(st, buf[k]), Grown(l, ParseUrlChar(st, buf[k]), k + 1), k + 1)
  {
    assert !IsUrlChar('#');
    hide IsUserinfoChar, IsUrlChar, IsAlpha, HeadIs, AllServer;
  }

  lemma GrownPhase(buf: string, connect: bool, st: UrlState, l: Layout, k: nat)
    requires k < |buf| && Phase(buf, connect, st, l, k) && !ParseUrlChar(st, buf[k]).Dead?
    ensures Phase(buf, connect, ParseUrlChar(st, buf[k]), Grown(l, ParseUrlChar(st, buf[k]), k + 1), k + 1)
  {
    hide Phase, ParseUrlChar, Grown, Before, AtServer;
    if Before(st) {
      GrownSchema(buf, connect, st, l, k);
    } else if AtServer(st) {
      GrownServer(buf, connect, st, l, k);
    } else {
      GrownTail(buf, connect, st, l, k);
    }
  }

  /** A character makes no other part than that of its own field longer. */
  lemma OtherParts(st: UrlState, l: Layout, c: char, k: nat, uf: Field)
    requires Parts(st, l, k) && !ParseUrlChar(st, c).Dead? && FieldOf(ParseUrlChar(st, c)) != Some(uf)
    ensures var l' := Grown(l, ParseUrlChar(st, c), k + 1);
      Start(l, uf) < End(l, k, uf) || Start(l', uf) < End(l', k + 1, uf) ==>
        Start(l', uf) == Start(l, uf) && End(l', k + 1, uf) == End(l, k, uf)
  {
    hide IsAlpha, IsUserinfoChar, IsUrlChar;
    match uf {
      case Schema =>
      case Host =>
      case Path =>
      case Query =>
      case Fragment =>
      case _ =>
    }
  }

  /** And that of its own field ends with it. */
  lemma OwnPart(st: UrlState, l: Layout, c: char, k: nat, uf: Field)
    requires Parts(st, l, k) && FieldOf(ParseUrlChar(st, c)) == Some(uf)
    ensures var l' := Grown(l, ParseUrlChar(st, c), k + 1);
      End(l', k + 1, uf) == k + 1 && Start(l', uf) == if FieldOf(st) == Some(uf) then Start(l, uf) else k
    ensures FieldOf(st).Some? ==> Start(l, FieldOf(st).value) < End(l, k, FieldOf(st).value) == k
  {
    hide IsAlpha, IsUserinfoChar, IsUrlChar;
  }

  lemma LastFollows(st: UrlState, last: Option<Field>, c: char)
    requires LastIs(st, last) && !ParseUrlChar(st, c).Dead?
    ensures var s' := ParseUrlChar(st, c);
      && (FieldOf(s').Some? ==> (last == FieldOf(s') <==> FieldOf(st) == FieldOf(s')))
      && LastIs(s', if FieldOf(s').Some? then FieldOf(s') else last)
  {
    hide IsAlpha, IsAlphanum, IsMark, IsUserinfoChar, IsUrlChar;
  }

  /** The entry of one field says what its part is. */
  ghost predicate Entry(fields: Fields, l: Layout, k: nat, uf: Field) {
    (uf in fields <==> Start(l, uf) < End(l, k, uf))
        && (uf in fields ==> fields[uf] == Cut16(Start(l, uf), End(l, k, uf)))
  }

  lemma OtherEntry(a: Loop, l: Layout, c: char, k: nat, uf: Field)
    requires Entry(a.fields, l, k, uf) && Parts(a.s, l, k) && !ParseUrlChar(a.s, c).Dead?
    requires FieldOf(ParseUrlChar(a.s, c)) != Some(uf)
    ensures Entry(Next(a, c, k).fields, Grown(l, ParseUrlChar(a.s, c), k + 1), k + 1, uf)
  {
    hide U16, ParseUrlChar, FieldOf, Parts, Start, End, Grown, Cut16;
    OtherParts(a.s, l, c, k, uf);
  }

  lemma OwnEntry(a: Loop, l: Layout, c: char, k: nat, uf: Field)
    requires Describes(a.fields, l, k) && LastIs(a.s, a.last) && Parts(a.s, l, k)
    requires FieldOf(ParseUrlChar(a.s, c)) == Some(uf)
    ensures Entry(Next(a, c, k).fields, Grown(l, ParseUrlChar(a.s, c), k + 1), k + 1, uf)
  {
    hide U16, ParseUrlChar, FieldOf, Parts, LastIs, Start, End, Grown;
    OwnPart(a.s, l, c, k, uf);
    HasField(a.s, c);
    LastFollows(a.s, a.last, c);
    if FieldOf(a.s) == Some(uf) { U16Next(k - Start(l, uf)); }
  }

  lemma HasField(st: UrlState, c: char)
    ensures FieldOf(ParseUrlChar(st, c)).Some? ==> !ParseUrlChar(st, c).Dead?
  {
    hide ParseUrlChar;
  }

  /** The fields and the layout grow together. */
  lemma GrownFields(a: Loop, l: Layout, c: char, k: nat)
    requires Describes(a.fields, l, k) && LastIs(a.s, a.last) && Parts(a.s, l, k)
    requires !ParseUrlChar(a.s, c).Dead?
    ensures var st := ParseUrlChar(a.s, c);
      Describes(Next(a, c, k).fields, Grown(l, st, k + 1), k + 1) && LastIs(st, Next(a, c, k).last)
  {
    hide U16, ParseUrlChar, FieldOf, Parts, LastIs, Start, End, Grown, Cut16;
    LastFollows(a.s, a.last, c);
    assert LastIs(ParseUrlChar(a.s, c), Next(a, c, k).last);
    hide Next;
    var fields, l', n := Next(a, c, k).fields, Grown(l, ParseUrlChar(a.s, c), k + 1), k + 1;
    forall uf
      ensures uf in fields <==> Start(l', uf) < End(l', n, uf)
      ensures uf in fields ==> fields[uf] == Cut16(Start(l', uf), End(l', n, uf))
    {
      if FieldOf(ParseUrlChar(a.s, c)) == Some(uf) {
        OwnEntry(a, l, c, k, uf);
      } else {
        assert Entry(a.fields, l, k, uf);
        OtherEntry(a, l, c, k, uf);
      }
    }
  }

  /** Which parts of a layout end at k, by state. */
  predicate Parts(st: UrlState, l: Layout, k: nat) {
    match st
    case SpacesBeforeUrl => k == 0 && l == Layout(0, 0, 0, 0, 0, 0, 0)
    case InSchema => k > 0 && l == Layout(k, k, k, k, k, k, k)
    case SchemaSlash => l.s < k && l == Layout(l.s, k, k, k, k, k, k)
    case SchemaSlashSlash => l.s < k && l == Layout(l.s, k, k, k, k, k, k)
    case ServerStart => (k > 0 ==> l.s < k) && l == Layout(l.s, k, k, k, k, k, k)
    case InServer => l.h < k && l == Layout(l.s, l.h, k, k, k, k, k)
    case ServerWithAt => l.h < k && l == Layout(l.s, l.h, k, k, k, k, k)
    case InPath => l.p < k && l == Layout(l.s, l.h, l.p, k, k, k, k)
    case QueryStart => l.q < k && l == Layout(l.s, l.h, l.p, l.q, k, k, k)
    case InQuery => l.r < k && l == Layout(l.s, l.h, l.p, l.q, l.r, k, k)
    case FragmentStart => l.f < k && l == Layout(l.s, l.h, l.p, l.q, l.r, l.f, k)
    case InFragment => l.g < k
    case Dead => false
  }

  lemma PhaseParts(buf: string, connect: bool, st: UrlState, l: Layout, k: nat)
    requires k <= |buf| && Phase(buf, connect, st, l, k)
    ensures Parts(st, l, k)
  {}

  lemma GrownAt(buf: string, connect: bool, st: UrlState, l: Layout, k: nat)
    requires k < |buf| && Parts(st, l, k) && !ParseUrlChar(st, buf[k]).Dead? && (st.SpacesBeforeUrl? ==> k == 0)
    ensures var st' := ParseUrlChar(st, buf[k]); var l' := Grown(l, st', k + 1);
      (HasAt(buf, l.h, l.p) || st'.ServerWithAt?) <==> HasAt(buf, l'.h, l'.p)
  {
    var st' := ParseUrlChar(st, buf[k]);
    var l' := Grown(l, st', k + 1);
    assert st'.ServerWithAt? ==> buf[k] == '@';
    assert st'.InServer? ==> buf[k] != '@';
    hide IsAlpha, IsUserinfoChar, IsUrlChar;
    assert (st'.InServer? || st'.ServerWithAt?) ==> l'.h == l.h && l.p == k && l'.p == k + 1;
    assert !(st'.InServer? || st'.ServerWithAt?) ==> (l'.h == l.h && l'.p == l.p) || (l.h == l.p && l'.h == l'.p);
    hide Parts, Grown, ParseUrlChar;
  }

  /** What the first machine has found when it is not dead. */
  lemma {:induction false} ScanLayout(buf: string, connect: bool, k: nat) returns (l: Layout)
    requires k <= |buf| && !Scan(buf, connect, k).s.Dead?
    ensures var a := Scan(buf, connect, k);
      Phase(buf, connect, a.s, l, k) && Describes(a.fields, l, k) && LastIs(a.s, a.last)
          && (a.at <==> HasAt(buf, l.h, l.p))
    decreases k
  {
    hide Phase, Describes, LastIs, HasAt, Grown, ParseUrlChar, Parts, FieldOf, Bounded;
    if k == 0 {
      l := Layout(0, 0, 0, 0, 0, 0, 0);
      StartLayout(buf, connect);
    } else {
      var b := Scan(buf, connect, k - 1);
      NextState(b, buf[k - 1], k - 1);
      hide Next;
      l := ScanLayout(buf, connect, k - 1);
      PhaseParts(buf, connect, b.s, l, k - 1);
      StartsAtZero(buf, connect, b.s, l, k - 1);
      GrownPhase(buf, connect, b.s, l, k - 1);
      GrownFields(b, l, buf[k - 1], k - 1);
      GrownAt(buf, connect, b.s, l, k - 1);
      l := Grown(l, ParseUrlChar(b.s, buf[k - 1]), k);
    }
  }

  lemma StartLayout(buf: string, connect: bool)
    ensures var a, l := Scan(buf, connect, 0), Layout(0, 0, 0, 0, 0, 0, 0);
      Phase(buf, connect, a.s, l, 0) && Describes(a.fields, l, 0) && LastIs(a.s, a.last) && (a.at <==> HasAt(buf, 0, 0))
  {}

  lemma StartsAtZero(buf: string, connect: bool, st: UrlState, l: Layout, k: nat)
    requires k <= |buf| && Phase(buf, connect, st, l, k)
    ensures st.SpacesBeforeUrl? ==> k == 0
  {}

  lemma NextState(b: Loop, c: char, k: nat)
    ensures var st := ParseUrlChar(b.s, c);
      Next(b, c, k).s == st && (!st.Dead? ==> (Next(b, c, k).at <==> b.at || st.ServerWithAt?))
          && (b.s.Dead? ==> st.Dead?)
  {}

  // ---------- the second machine ----------

  predicate IsAddressChar(c: char) { IsHex(c) || c == ':' || c == '.' }

  ghost predicate AllUserinfo(buf: string, i: nat, j: nat) {
    forall x :: i <= x < j <= |buf| ==> IsUserinfoChar(buf[x])
  }
  ghost predicate AllHost(buf: string, i: nat, j: nat) { forall x :: i <= x < j <= |buf| ==> IsHostChar(buf[x]) }
  ghost predicate AllAddress(buf: string, i: nat, j: nat) { forall x :: i <= x < j <= |buf| ==> IsAddressChar(buf[x]) }
  ghost predicate AllZone(buf: string, i: nat, j: nat) { forall x :: i <= x < j <= |buf| ==> IsZoneChar(buf[x]) }
  ghost predicate AllNum(buf: string, i: nat, j: nat) { forall x :: i <= x < j <= |buf| ==> IsDigit(buf[x]) }

  /** The authority from h on: the user information [h, u), the host [a, b), the port [c, end). A bracketed
      host is an address [a, z), with or without a zone behind a percent sign. */
  datatype Authority = Authority(u: nat, v6: bool, a: nat, z: nat, b: nat, c: nat)

  /** What stands before position x, where the host or its bracket starts. */
  ghost predicate UserinfoIs(buf: string, at: bool, h: nat, u: nat, x: nat) {
    if at then h <= u && x == u + 1 <= |buf| && buf[u] == '@' && AllUserinfo(buf, h, u) else u == h && x == h
  }

  ghost predicate NameIs(buf: string, at: bool, h: nat, l: Authority) {
    UserinfoIs(buf, at, h, l.u, l.a) && l.a < l.b <= |buf| && AllHost(buf, l.a, l.b)
  }

  ghost predicate BracketedIs(buf: string, at: bool, h: nat, l: Authority) {
    && 0 < l.a < l.z <= l.b <= |buf| && UserinfoIs(buf, at, h, l.u, l.a - 1) && buf[l.a - 1] == '['
    && AllAddress(buf, l.a, l.z) && (l.z < l.b ==> buf[l.z] == '%' && AllZone(buf, l.z + 1, l.b))
  }

  /** A name, or a bracketed address, and where the text behind it starts. */
  ghost predicate HostIs(buf: string, at: bool, h: nat, l: Authority, x: nat) {
    if l.v6 then BracketedIs(buf, at, h, l) && x == l.b + 1 <= |buf| && buf[l.b] == ']' && l.b != l.z + 1
    else NameIs(buf, at, h, l) && x == l.b
  }

  /** The layout of a whole authority that ends at k. */
  ghost predicate AuthorityIs(buf: string, at: bool, h: nat, l: Authority, k: nat) {
    k <= |buf| && if l.c == k then HostIs(buf, at, h, l, k)
    else 0 < l.c < k && HostIs(buf, at, h, l, l.c - 1) && buf[l.c - 1] == ':' && AllNum(buf, l.c, k)
  }

  ghost predicate HostPhase(buf: string, at: bool, st: HostState, h: nat, l: Authority, k: nat)
    requires k <= |buf|
  {
    match st
    case UserinfoStart => at && k == h && l == Authority(k, false, k, k, k, k)
    case InUserinfo => at && h < k && l == Authority(k, false, k, k, k, k) && AllUserinfo(buf, h, k)
    case HostStart => l == Authority(l.u, false, k, k, k, k) && UserinfoIs(buf, at, h, l.u, k)
    case V6Start => k > 0 && l == Authority(l.u, true, k, k, k, k) && UserinfoIs(buf, at, h, l.u, k - 1)
        && buf[k - 1] == '['
    case InHost => l == Authority(l.u, false, l.a, k, k, k) && NameIs(buf, at, h, l)
    case InV6 => l == Authority(l.u, true, l.a, k, k, k) && BracketedIs(buf, at, h, l)
    case ZoneStart => k > 0 && l == Authority(l.u, true, l.a, k - 1, k, k) && BracketedIs(buf, at, h, l)
    case InZone => l == Authority(l.u, true, l.a, l.z, k, k) && BracketedIs(buf, at, h, l) && l.z + 1 < k
    case V6End => l == Authority(l.u, true, l.a, l.z, l.b, k) && HostIs(buf, at, h, l, k)
    case PortStart => k > 0 && l == l.(c := k) && HostIs(buf, at, h, l, k - 1) && buf[k - 1] == ':'
    case InPort => l.c < k && AuthorityIs(buf, at, h, l, k)
    case HostDead => false
  }

  function HostGrown(l: Authority, st: HostState, k: nat): Authority {
    match st
    case UserinfoStart => l
    case InUserinfo => Authority(k, false, k, k, k, k)
    case HostStart => Authority(l.u, false, k, k, k, k)
    case V6Start => Authority(l.u, true, k, k, k, k)
    case InHost => Authority(l.u, false, l.a, k, k, k)
    case InV6 => Authority(l.u, true, l.a, k, k, k)
    case ZoneStart => Authority(l.u, true, l.a, l.z, k, k)
    case InZone => Authority(l.u, true, l.a, l.z, k, k)
    case V6End => l.(c := k)
    case PortStart => l.(c := k)
    case InPort => l
    case HostDead => l
  }

  /** The fields of the second machine; before the host starts its length is 0. */
  ghost predicate HostDescribes(fields: Fields, st: HostState, h: nat, l: Authority, k: nat) {
    HostEntry(fields, st, h, l) && UserinfoEntry(fields, h, l) && PortEntry(fields, l, k)
  }

  predicate HostEntry(fields: Fields, st: HostState, h: nat, l: Authority) {
    Host in fields && fields[Host] == if BeforeHost(st) || l.b < l.a then Range(h, 0) else Cut16(l.a, l.b)
  }

  predicate UserinfoEntry(fields: Fields, h: nat, l: Authority) {
    (Userinfo in fields <==> h < l.u) && (Userinfo in fields ==> fields[Userinfo] == Cut16(h, l.u))
  }

  predicate PortEntry(fields: Fields, l: Authority, k: nat) {
    (Port in fields <==> l.c < k) && (Port in fields ==> fields[Port] == Cut16(l.c, k))
  }

  lemma HostGrownPhase(buf: string, at: bool, st: HostState, h: nat, l: Authority, k: nat)
    requires h <= k < |buf| && HostPhase(buf, at, st, h, l, k) && !ParseHostChar(st, buf[k]).HostDead?
    ensures HostPhase(buf, at, ParseHostChar(st, buf[k]), h, HostGrown(l, ParseHostChar(st, buf[k]), k + 1), k + 1)
  {
    hide IsAlphanum, IsMark;
  }

  /** Which parts of an authority end at k, by state. */
  predicate HostParts(st: HostState, h: nat, l: Authority, k: nat) {
    match st
    case UserinfoStart => k == h && l == Authority(k, false, k, k, k, k)
    case InUserinfo => h < k && l == Authority(k, false, k, k, k, k)
    case HostStart => l == Authority(l.u, false, k, k, k, k) && l.u <= k && h <= k
    case V6Start => l == Authority(l.u, true, k, k, k, k) && l.u <= k && h <= k
    case InHost => l == Authority(l.u, false, l.a, k, k, k) && l.u <= l.a < k
    case InV6 => l == Authority(l.u, true, l.a, k, k, k) && l.u <= l.a < k
    case ZoneStart => l == Authority(l.u, true, l.a, l.z, k, k) && l.u <= l.a < k
    case InZone => l == Authority(l.u, true, l.a, l.z, k, k) && l.u <= l.a < k
    case V6End => l.u <= l.a < l.b < l.c == k
    case PortStart => l.u <= l.a < l.b < l.c == k
    case InPort => l.u <= l.a < l.b < l.c < k
    case HostDead => false
  }

  lemma HostPhaseParts(buf: string, at: bool, st: HostState, h: nat, l: Authority, k: nat)
    requires h <= k <= |buf| && HostPhase(buf, at, st, h, l, k)
    ensures HostParts(st, h, l, k)
  {
    hide AllNum, AllUserinfo, AllHost, AllAddress, AllZone;
  }

  lemma HostEntryGrows(x: HostLoop, h: nat, l: Authority, c: char, k: nat)
    requires h <= k && HostParts(x.s, h, l, k) && HostEntry(x.fields, x.s, h, l)
    requires !ParseHostChar(x.s, c).HostDead?
    ensures var st := ParseHostChar(x.s, c);
      HostEntry(HostNext(x, c, k).fields, st, h, HostGrown(l, st, k + 1))
  {
    if l.a <= k { U16Next(k - l.a); }
    hide IsUserinfoChar, IsHostChar, IsZoneChar, IsHex, IsDigit, U16;
  }

  lemma UserinfoEntryGrows(x: HostLoop, h: nat, l: Authority, c: char, k: nat)
    requires h <= k && HostParts(x.s, h, l, k) && Host in x.fields && UserinfoEntry(x.fields, h, l)
    requires !ParseHostChar(x.s, c).HostDead?
    ensures var st := ParseHostChar(x.s, c);
      UserinfoEntry(HostNext(x, c, k).fields, h, HostGrown(l, st, k + 1))
  {
    U16Next(k - h);
    hide IsUserinfoChar, IsHostChar, IsZoneChar, IsHex, IsDigit, U16;
  }

  lemma PortEntryGrows(x: HostLoop, h: nat, l: Authority, c: char, k: nat)
    requires h <= k && HostParts(x.s, h, l, k) && Host in x.fields && PortEntry(x.fields, l, k)
    requires !ParseHostChar(x.s, c).HostDead?
    ensures var st := ParseHostChar(x.s, c);
      PortEntry(HostNext(x, c, k).fields, HostGrown(l, st, k + 1), k + 1)
  {
    if l.c <= k { U16Next(k - l.c); }
    hide IsUserinfoChar, IsHostChar, IsZoneChar, IsHex, IsDigit, U16;
  }

  lemma HostGrownFields(x: HostLoop, h: nat, l: Authority, c: char, k: nat)
    requires h <= k && HostParts(x.s, h, l, k) && HostDescribes(x.fields, x.s, h, l, k)
    requires !ParseHostChar(x.s, c).HostDead?
    ensures var st := ParseHostChar(x.s, c);
      HostDescribes(HostNext(x, c, k).fields, st, h, HostGrown(l, st, k + 1), k + 1)
  {
    hide ParseHostChar, HostNext, HostGrown, UserinfoEntry, PortEntry, HostParts, BeforeHost;
    HostEntryGrows(x, h, l, c, k);
    UserinfoEntryGrows(x, h, l, c, k);
    PortEntryGrows(x, h, l, c, k);
  }

  /** What the second machine has found when it is not dead. */
  lemma {:induction false} HostScanLayout(buf: string, at: bool, fields: Fields, h: nat, k: nat) returns (l: Authority)
    requires h <= k <= |buf| && Host in fields && fields[Host] == Range(h, 0) && Port !in fields && Userinfo !in fields
    requires !HostScan(buf, at, fields, h, k).s.HostDead?
    ensures var x := HostScan(buf, at, fields, h, k);
      HostPhase(buf, at, x.s, h, l, k) && HostDescribes(x.fields, x.s, h, l, k)
    decreases k
  {
    hide HostPhase, HostDescribes, HostParts, HostGrown, ParseHostChar, BeforeHost;
    if k == h {
      l := Authority(h, false, h, h, h, h);
      HostPhaseStarts(buf, at, fields, h);
    } else {
      var b := HostScan(buf, at, fields, h, k - 1);
      HostNextState(b, buf[k - 1], k - 1);
      l := HostScanLayout(buf, at, fields, h, k - 1);
      HostGrownPhase(buf, at, b.s, h, l, k - 1);
      HostPhaseParts(buf, at, b.s, h, l, k - 1);
      HostGrownFields(b, h, l, buf[k - 1], k - 1);
      l := HostGrown(l, ParseHostChar(b.s, buf[k - 1]), k);
      hide HostNext;
    }
  }

  lemma HostPhaseStarts(buf: string, at: bool, fields: Fields, h: nat)
    requires h <= |buf| && Host in fields && fields[Host] == Range(h, 0) && Port !in fields && Userinfo !in fields
    ensures var st := if at then UserinfoStart else HostStart;
      HostPhase(buf, at, st, h, Authority(h, false, h, h, h, h), h)
          && HostDescribes(fields, st, h, Authority(h, false, h, h, h, h), h)
  {}

  lemma HostNextState(b: HostLoop, c: char, i: nat)
    requires Host in b.fields
    ensures HostNext(b, c, i).s == ParseHostChar(b.s, c) && (b.s.HostDead? ==> HostNext(b, c, i).s.HostDead?)
  {
    hide BeforeHost;
  }

  // ---------- a parsed URL ----------

  function PartStart(l: Layout, m: Authority, uf: Field): nat {
    match uf
    case Schema => 0
    case Userinfo => l.h
    case Host => m.a
    case Port => m.c
    case Path => l.p
    case Query => l.r
    case Fragment => l.g
  }

  function PartEnd(l: Layout, m: Authority, k: nat, uf: Field): nat {
    match uf
    case Schema => l.s
    case Userinfo => m.u
    case Host => m.b
    case Port => l.p
    case Path => l.q
    case Query => l.f
    case Fragment => k
  }

  ghost predicate Parsed(fields: Fields, l: Layout, m: Authority, k: nat) {
    forall uf ::
      && (uf in fields <==> PartStart(l, m, uf) < PartEnd(l, m, k, uf))
      && (uf in fields ==> fields[uf] == Cut16(PartStart(l, m, uf), PartEnd(l, m, k, uf)))
  }

  /** The layout of the authority, if there is one. */
  ghost predicate HostLayout(buf: string, l: Layout, m: Authority) {
    if l.h < l.p then AuthorityIs(buf, HasAt(buf, l.h, l.p), l.h, m, l.p)
        else m == Authority(l.p, false, l.p, l.p, l.p, l.p)
  }

  /** The authority is where its 16-bit entry says. */
  predicate AuthorityFits(l: Layout) {
    l.h < l.p ==> l.h < 65536 && l.p - l.h < 65536
  }

  /** A successful parse is of a text of the grammar, and its fields are the parts of that text, cut to 16
      bits. */
  lemma ParsedWith(buf: string, connect: bool, l: Layout) returns (m: Authority)
    requires ParseUrl(buf, connect).Some? && AuthorityFits(l)
    requires var a := Scan(buf, connect, |buf|);
      Phase(buf, connect, a.s, l, |buf|) && Describes(a.fields, l, |buf|) && (a.at <==> HasAt(buf, l.h, l.p))
    ensures Grammar(buf, connect, l, |buf|) && HostLayout(buf, l, m)
    ensures Parsed(ParseUrl(buf, connect).value.fields, l, m, |buf|)
    ensures l.s > 0 ==> l.h < l.p
  {
    var k := |buf|;
    var a := Scan(buf, connect, k);
    EndsInGrammar(buf, connect, a, l);
    if Host in a.fields {
      m := ParsedHost(buf, a.at, a.fields, l, k);
    } else {
      m := Authority(l.p, false, l.p, l.p, l.p, l.p);
      assert Start(l, Host) >= End(l, k, Host);
      NoHost(a.fields, l, k);
    }
    hide Scan, Grammar, Phase, AuthorityIs;
  }

  lemma ParsedLayout(buf: string, connect: bool) returns (l: Layout, m: Authority)
    requires |buf| < 65536 && ParseUrl(buf, connect).Some?
    ensures Grammar(buf, connect, l, |buf|) && HostLayout(buf, l, m)
    ensures Parsed(ParseUrl(buf, connect).value.fields, l, m, |buf|)
    ensures l.s > 0 ==> l.h < l.p
  {
    l := ScanLayout(buf, connect, |buf|);
    assert AuthorityFits(l) by {
      EndsInGrammar(buf, connect, Scan(buf, connect, |buf|), l);
      hide ParseUrl, Scan, Phase;
    }
    hide Phase, Describes, HasAt, AuthorityFits, Grammar, HostLayout;
    m := ParsedWith(buf, connect, l);
  }

  lemma EndsInGrammar(buf: string, connect: bool, a: Loop, l: Layout)
    requires buf != "" && Phase(buf, connect, a.s, l, |buf|) && Describes(a.fields, l, |buf|)
    requires Schema in a.fields ==> Host in a.fields
    ensures Grammar(buf, connect, l, |buf|) && (l.s > 0 ==> l.h < l.p) && (Host in a.fields <==> l.h < l.p)
  {
    assert Schema in a.fields <==> Start(l, Schema) < End(l, |buf|, Schema);
    assert Host in a.fields <==> Start(l, Host) < End(l, |buf|, Host);
    hide Describes;
  }

  lemma NoHost(fields: Fields, l: Layout, k: nat)
    requires Describes(fields, l, k) && Host !in fields && l.h <= l.p
    ensures Parsed(fields, l, Authority(l.p, false, l.p, l.p, l.p, l.p), k)
  {
    assert Start(l, Host) >= End(l, k, Host);
  }

  lemma HostEntryIs(fields: Fields, l: Layout, k: nat)
    requires Describes(fields, l, k) && l.h < l.p && AuthorityFits(l)
    ensures Host in fields && fields[Host] == Range(l.h, l.p - l.h)
  {
    assert Start(l, Host) < End(l, k, Host);
  }

  lemma ParsedHost(buf: string, at: bool, fields: Fields, l: Layout, k: nat) returns (m: Authority)
    requires k == |buf| && Describes(fields, l, k) && Host in fields && l.h < l.p <= k && Bounded(fields, k)
    requires AuthorityFits(l)
    requires Port !in fields && Userinfo !in fields && ParseHost(buf, at, fields).Some?
    ensures AuthorityIs(buf, at, l.h, m, l.p) && Parsed(ParseHost(buf, at, fields).value, l, m, k)
  {
    hide HostScan, HostPhase, AuthorityIs, BeforeHost, HostDescribes, Bounded, Describes, Parsed, AuthorityFits;
    HostEntryIs(fields, l, k);
    var start := fields[Host := Range(l.h, 0)];
    m := HostScanLayout(buf, at, start, l.h, l.p);
    HostScanKeeps(buf, at, start, l.h, l.p);
    var x := HostScan(buf, at, start, l.h, l.p);
    AuthorityEnds(buf, at, x.s, l.h, m, l.p);
    HostFieldsParsed(fields, x.fields, x.s, l, m, k);
  }

  /** The fields of both machines together. */
  lemma HostFieldsParsed(fields: Fields, f: Fields, st: HostState, l: Layout, m: Authority, k: nat)
    requires Describes(fields, l, k) && HostDescribes(f, st, l.h, m, l.p) && m.a < m.b && !BeforeHost(st)
    requires forall uf :: uf !in {Host, Port, Userinfo} ==>
      (uf in f <==> uf in fields) && (uf in f ==> f[uf] == fields[uf])
    ensures Parsed(f, l, m, k)
  {
    hide Cut16;
    forall uf
      ensures uf in f <==> PartStart(l, m, uf) < PartEnd(l, m, k, uf)
      ensures uf in f ==> f[uf] == Cut16(PartStart(l, m, uf), PartEnd(l, m, k, uf))
    {
      if uf in {Host, Port, Userinfo} { hide Describes; } else { hide HostDescribes; }
    }
    hide Describes, HostDescribes, PartStart, PartEnd;
  }

  lemma AuthorityEnds(buf: string, at: bool, st: HostState, h: nat, m: Authority, k: nat)
    requires k <= |buf| && HostPhase(buf, at, st, h, m, k) && (st.InHost? || st.V6End? || st.InPort?)
    ensures AuthorityIs(buf, at, h, m, k) && m.a < m.b && !BeforeHost(st)
  {}

  function Rank(uf: Field): nat {
    match uf
    case Schema => 0
    case Userinfo => 1
    case Host => 2
    case Port => 3
    case Path => 4
    case Query => 5
    case Fragment => 6
  }

  lemma PartsInOrder(buf: string, connect: bool, l: Layout, m: Authority, uf: Field, vf: Field)
    requires Grammar(buf, connect, l, |buf|) && HostLayout(buf, l, m)
    requires PartStart(l, m, uf) < PartEnd(l, m, |buf|, uf) && PartStart(l, m, vf) < PartEnd(l, m, |buf|, vf)
    ensures PartEnd(l, m, |buf|, uf) <= |buf|
    ensures Rank(uf) < Rank(vf) ==> PartEnd(l, m, |buf|, uf) <= PartStart(l, m, vf)
  {
    AuthorityOrder(buf, l, m);
    hide HostLayout, PathIs, AllAlpha, AllQuery, AllFragment;
  }

  lemma AuthorityOrder(buf: string, l: Layout, m: Authority)
    requires HostLayout(buf, l, m) && l.h <= l.p
    ensures l.h <= m.u <= m.a <= m.b <= m.c <= l.p && (m.b == m.c ==> m.c == l.p)
    ensures l.h < l.p ==> m.a < m.b
  {
    hide AllNum, AllUserinfo, AllHost, AllAddress, AllZone, HasAt;
  }

  /** Below 65536 bytes nothing is cut. */
  ghost predicate ParsedExactly(fields: Fields, l: Layout, m: Authority, k: nat) {
    forall uf ::
      && (uf in fields <==> PartStart(l, m, uf) < PartEnd(l, m, k, uf))
      && (uf in fields ==> fields[uf] == Range(PartStart(l, m, uf), PartEnd(l, m, k, uf) - PartStart(l, m, uf)))
  }

  lemma NothingCut(buf: string, connect: bool, fields: Fields, l: Layout, m: Authority)
    requires |buf| < 65536 && Parsed(fields, l, m, |buf|)
    requires Grammar(buf, connect, l, |buf|) && HostLayout(buf, l, m)
    ensures ParsedExactly(fields, l, m, |buf|)
  {
    hide Grammar, HostLayout, PartStart, PartEnd;
    forall uf | uf in fields ensures PartEnd(l, m, |buf|, uf) <= |buf| {
      PartsInOrder(buf, connect, l, m, uf, uf);
    }
  }

  /** When the parser succeeds, every field is a non-empty range of the text, the fields lie in the order
      scheme, user information, host, port, path, query, fragment without overlapping, a scheme comes with
      a host, and the port is the value of its digits, which fits in 16 bits. */
  lemma ParsedFieldsAreRanges(buf: string, connect: bool)
    requires |buf| < 65536 && ParseUrl(buf, connect).Some?
    ensures var f := ParseUrl(buf, connect).value.fields;
      && (forall uf :: uf in f ==> f[uf].len > 0 && f[uf].off + f[uf].len <= |buf|)
      && (forall uf, vf :: uf in f && vf in f && Rank(uf) < Rank(vf) ==> f[uf].off + f[uf].len <= f[vf].off)
      && (Schema in f ==> Host in f)
    ensures var u := ParseUrl(buf, connect).value;
      if Port in u.fields then
        var r := u.fields[Port];
        && r.off + r.len <= |buf| && (forall c :: c in Text(buf, r) ==> IsDigit(c))
        && u.port == ParseNat(Text(buf, r)) <= 65535
      else u.port == 0
  {
    var l, m := ParsedLayout(buf, connect);
    var f := ParseUrl(buf, connect).value.fields;
    NothingCut(buf, connect, f, l, m);
    SchemaComesWithHost(buf, connect, l, m, f);
    PortIsDecimal(buf, connect, l, m);
    hide Grammar, HostLayout, ParseUrl, PartStart, PartEnd, Rank, Parsed;
    forall uf | uf in f ensures f[uf].len > 0 && f[uf].off + f[uf].len <= |buf| {
      PartsInOrder(buf, connect, l, m, uf, uf);
    }
    forall uf, vf | uf in f && vf in f && Rank(uf) < Rank(vf) ensures f[uf].off + f[uf].len <= f[vf].off {
      PartsInOrder(buf, connect, l, m, uf, vf);
    }
  }

  lemma PortParsed(buf: string, connect: bool)
    requires ParseUrl(buf, connect).Some?
    ensures var u := ParseUrl(buf, connect).value;
      if Port in u.fields then PortValue(Text(buf, u.fields[Port])) == Some(u.port) else u.port == 0
  {
    hide Scan, ParseHost, PortValue, Text;
  }

  lemma SchemaComesWithHost(buf: string, connect: bool, l: Layout, m: Authority, f: Fields)
    requires Grammar(buf, connect, l, |buf|) && HostLayout(buf, l, m) && Parsed(f, l, m, |buf|)
    requires (l.s > 0 ==> l.h < l.p)
    ensures Schema in f ==> Host in f
  {
    AuthorityOrder(buf, l, m);
    hide Grammar, HostLayout;
    assert Schema in f <==> PartStart(l, m, Schema) < PartEnd(l, m, |buf|, Schema);
    assert Host in f <==> PartStart(l, m, Host) < PartEnd(l, m, |buf|, Host);
    hide Parsed;
  }

  /** The part of the port is of digits. */
  lemma PortDigits(buf: string, l: Layout, m: Authority, i: nat)
    requires HostLayout(buf, l, m) && l.p <= |buf| && m.c <= i < l.p
    ensures IsDigit(buf[i])
  {
    hide HostIs, HasAt;
  }

  lemma PortIsDecimal(buf: string, connect: bool, l: Layout, m: Authority)
    requires ParseUrl(buf, connect).Some? && Grammar(buf, connect, l, |buf|) && HostLayout(buf, l, m)
    requires ParsedExactly(ParseUrl(buf, connect).value.fields, l, m, |buf|)
    ensures var u := ParseUrl(buf, connect).value;
      if Port in u.fields then
        var text := Text(buf, u.fields[Port]);
        text == buf[m.c..l.p] && (forall c :: c in text ==> IsDigit(c)) && u.port == ParseNat(text) <= 65535
      else u.port == 0
  {
    var u := ParseUrl(buf, connect).value;
    PortParsed(buf, connect);
    assert l.p <= |buf|;
    assert Port in u.fields <==> PartStart(l, m, Port) < PartEnd(l, m, |buf|, Port);
    assert Port in u.fields ==> u.fields[Port] == Range(m.c, l.p - m.c);
    hide ParseUrl, Grammar, HostLayout, ParsedExactly;
    if Port in u.fields {
      var text := Text(buf, u.fields[Port]);
      forall i | 0 <= i < |text| ensures IsDigit(text[i]) { PortDigits(buf, l, m, m.c + i); }
      PortValueOfDigits(text);
    }
  }
}
