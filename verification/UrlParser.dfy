/** The URL parser: two character machines, and the loops that turn their state changes into field ranges
    (strict mode). */
module UrlParser {
  import opened Decimals
  import opened Wrappers

  // ---------- characters ----------

  predicate IsAlpha(c: char) { 'a' <= c <= 'z' || 'A' <= c <= 'Z' }
  predicate IsAlphanum(c: char) { IsAlpha(c) || IsDigit(c) }
  predicate IsHex(c: char) { IsDigit(c) || 'a' <= c <= 'f' || 'A' <= c <= 'F' }
  predicate IsMark(c: char) { c in "-_.!~*'()" }
  predicate IsUserinfoChar(c: char) { IsAlphanum(c) || IsMark(c) || c in "%;:&=+$," }
  predicate IsHostChar(c: char) { IsAlphanum(c) || c == '.' || c == '-' }
  predicate IsZoneChar(c: char) { IsAlphanum(c) || c in "%.-_~" }

  /** normal_url_char: visible ASCII but for '#' and '?'. */
  predicate IsUrlChar(c: char) { 33 <= c as int <= 126 && c != '#' && c != '?' }

  // ---------- the machines ----------

  datatype UrlState = Dead | SpacesBeforeUrl | InSchema | SchemaSlash | SchemaSlashSlash | ServerStart | InServer
    | ServerWithAt | InPath | QueryStart | InQuery | FragmentStart | InFragment

  /** parse_url_char */
  function ParseUrlChar(s: UrlState, c: char): UrlState {
    if c in " \r\n\t" || c as int == 12 then Dead
    else match s
      case SpacesBeforeUrl => if c == '/' || c == '*' then InPath else if IsAlpha(c) then InSchema else Dead
      case InSchema => if IsAlpha(c) then InSchema else if c == ':' then SchemaSlash else Dead
      case SchemaSlash => if c == '/' then SchemaSlashSlash else Dead
      case SchemaSlashSlash => if c == '/' then ServerStart else Dead
      case ServerWithAt => if c == '@' then Dead else ParseServerChar(c)
      case ServerStart => ParseServerChar(c)
      case InServer => ParseServerChar(c)
      case InPath => if IsUrlChar(c) then InPath else if c == '?' then QueryStart else if c == '#' then FragmentStart
          else Dead
      case QueryStart => ParseQueryChar(c)
      case InQuery => ParseQueryChar(c)
      case FragmentStart => if IsUrlChar(c) || c == '?' then InFragment else if c == '#' then FragmentStart else Dead
      case InFragment => if IsUrlChar(c) || c == '?' || c == '#' then InFragment else Dead
      case Dead => Dead
  }

  function ParseServerChar(c: char): UrlState {
    if c == '/' then InPath
    else if c == '?' then QueryStart
    else if c == '@' then ServerWithAt
    else if IsUserinfoChar(c) || c == '[' || c == ']' then InServer
    else Dead
  }

  function ParseQueryChar(c: char): UrlState {
    if IsUrlChar(c) || c == '?' then InQuery else if c == '#' then FragmentStart else Dead
  }

  datatype HostState = HostDead | UserinfoStart | InUserinfo | HostStart | V6Start | InHost | InV6 | V6End
    | ZoneStart | InZone | PortStart | InPort

  /** http_parse_host_char */
  function ParseHostChar(s: HostState, c: char): HostState {
    match s
    case InUserinfo => ParseUserinfoChar(c)
    case UserinfoStart => ParseUserinfoChar(c)
    case HostStart => if c == '[' then V6Start else if IsHostChar(c) then InHost else HostDead
    case InHost => if IsHostChar(c) then InHost else if c == ':' then PortStart else HostDead
    case V6End => if c == ':' then PortStart else HostDead
    case InV6 => if c == ']' then V6End else if IsHex(c) || c == ':' || c == '.' then InV6
        else if c == '%' then ZoneStart else HostDead
    case V6Start => if IsHex(c) || c == ':' || c == '.' then InV6 else HostDead
    case InZone => if c == ']' then V6End else if IsZoneChar(c) then InZone else HostDead
    case ZoneStart => if IsZoneChar(c) then InZone else HostDead
    case InPort => if IsDigit(c) then InPort else HostDead
    case PortStart => if IsDigit(c) then InPort else HostDead
    case HostDead => HostDead
  }

  function ParseUserinfoChar(c: char): HostState {
    if c == '@' then HostStart else if IsUserinfoChar(c) then InUserinfo else HostDead
  }

  // ---------- fields ----------

  datatype Field = Schema | Host | Port | Path | Query | Fragment | Userinfo

  /** An entry of field_data: both members are uint16_t. */
  datatype Range = Range(off: nat, len: nat)

  /** field_set and field_data together: a field is set when it is in the map. */
  type Fields = map<Field, Range>

  function U16(n: nat): (r: nat)
    ensures r <= n && (n < 65536 ==> r == n)
  {
    n % 65536
  }

  lemma U16Next(n: nat)
    ensures U16(U16(n) + 1) == U16(n + 1)
  {}

  /** The entry for the text from i up to j, cut to 16 bits. */
  function Cut16(i: nat, j: nat): Range
    requires i <= j
  {
    Range(U16(i), U16(j - i))
  }

  function Longer(r: Range): Range { Range(r.off, U16(r.len + 1)) }

  /** The field that a state of the first machine belongs to; None is a delimiter. */
  function FieldOf(s: UrlState): Option<Field> {
    match s
    case InSchema => Some(Schema)
    case InServer => Some(Host)
    case ServerWithAt => Some(Host)
    case InPath => Some(Path)
    case InQuery => Some(Query)
    case InFragment => Some(Fragment)
    case _ => None
  }

  /** The variables of http_parser_parse_url's loop. */
  datatype Loop = Loop(s: UrlState, last: Option<Field>, at: bool, fields: Fields)

  function Next(a: Loop, c: char, i: nat): Loop {
    var s := ParseUrlChar(a.s, c);
    if FieldOf(s).None? then a.(s := s)
    else
      var uf := FieldOf(s).value;
      var at := a.at || s.ServerWithAt?;
      if a.last == Some(uf) && uf in a.fields then a.(s := s, at := at, fields := a.fields[uf := Longer(a.fields[uf])])
      else Loop(s, Some(uf), at, a.fields[uf := Range(U16(i), 1)])
  }

  /** No field reaches behind k, however its numbers wrapped around. */
  ghost predicate Bounded(fields: Fields, k: nat) {
    forall uf :: uf in fields ==> fields[uf].off + fields[uf].len <= k
  }

  /** The loop after k characters. */
  function Scan(buf: string, connect: bool, k: nat): (a: Loop)
    requires k <= |buf|
    ensures Bounded(a.fields, k) && (a.last.Some? ==> a.last.value in a.fields)
    ensures Port !in a.fields && Userinfo !in a.fields
  {
    if k == 0 then Loop(if connect then ServerStart else SpacesBeforeUrl, None, false, map[])
    else Next(Scan(buf, connect, k - 1), buf[k - 1], k - 1)
  }

  /** The variables of http_parse_host's loop. */
  datatype HostLoop = HostLoop(s: HostState, fields: Fields)

  /** A character of a field that starts when its state is entered. */
  function Extended(fields: Fields, uf: Field, starts: bool, i: nat): Fields {
    fields[uf := if starts || uf !in fields then Range(U16(i), 1) else Longer(fields[uf])]
  }

  function HostNext(a: HostLoop, c: char, i: nat): HostLoop
    requires Host in a.fields
  {
    var s := ParseHostChar(a.s, c);
    var host := a.fields[Host];
    match s
    case InHost => HostLoop(s, a.fields[Host := Longer(if a.s != s then host.(off := U16(i)) else host)])
    case InV6 => HostLoop(s, a.fields[Host := Longer(if a.s != s then host.(off := U16(i)) else host)])
    case ZoneStart => HostLoop(s, a.fields[Host := Longer(host)])
    case InZone => HostLoop(s, a.fields[Host := Longer(host)])
    case InPort => HostLoop(s, Extended(a.fields, Port, a.s != s, i))
    case InUserinfo => HostLoop(s, Extended(a.fields, Userinfo, a.s != s, i))
    case _ => a.(s := s)
  }

  predicate BeforeHost(s: HostState) { s.UserinfoStart? || s.InUserinfo? || s.HostStart? || s.V6Start? }

  /** The loop over the characters from `from` up to k. */
  function HostScan(buf: string, at: bool, fields: Fields, from: nat, k: nat): (a: HostLoop)
    requires from <= k <= |buf| && Host in fields && fields[Host] == Range(from, 0)
    requires Port !in fields && Userinfo !in fields
    ensures Host in a.fields
    decreases k
  {
    if k == from then HostLoop(if at then UserinfoStart else HostStart, fields)
    else HostNext(HostScan(buf, at, fields, from, k - 1), buf[k - 1], k - 1)
  }

  /** The loop leaves the fields of the first machine alone but for the host, and its own stay behind k. */
  lemma {:induction false} HostScanKeeps(buf: string, at: bool, fields: Fields, from: nat, k: nat)
    requires from <= k <= |buf| && Host in fields && fields[Host] == Range(from, 0)
    requires Port !in fields && Userinfo !in fields
    ensures var a := HostScan(buf, at, fields, from, k);
      && (BeforeHost(a.s) ==> a.fields[Host] == Range(from, 0))
      && (forall uf :: uf in a.fields && uf in {Host, Port, Userinfo} ==> a.fields[uf].off + a.fields[uf].len <= k)
      && (forall uf :: uf !in {Host, Port, Userinfo} ==>
            (uf in a.fields <==> uf in fields) && (uf in fields ==> a.fields[uf] == fields[uf]))
    decreases k
  {
    if k > from { HostScanKeeps(buf, at, fields, from, k - 1); }
  }

  /** http_parse_host: None is the error return. */
  function ParseHost(buf: string, at: bool, fields: Fields): (f: Option<Fields>)
    requires Host in fields && Port !in fields && Userinfo !in fields && Bounded(fields, |buf|)
    ensures f.Some? ==> Bounded(f.value, |buf|)
  {
    var r := fields[Host];
    HostScanKeeps(buf, at, fields[Host := Range(r.off, 0)], r.off, r.off + r.len);
    var a := HostScan(buf, at, fields[Host := Range(r.off, 0)], r.off, r.off + r.len);
    if a.s.InHost? || a.s.V6End? || a.s.InPort? then Some(a.fields) else None
  }

  /** http_parser_url after a successful call. */
  datatype Url = Url(fields: Fields, port: nat)

  function Text(buf: string, r: Range): string
    requires r.off + r.len <= |buf|
  {
    buf[r.off..r.off + r.len]
  }

  /** The conversion of the port's text, which stops when the value is too large. It adds the distance of
      each character from '0', whatever the character; below zero an unsigned long is too large as well. */
  function PortValue(text: string): (v: Option<nat>)
    ensures v.Some? ==> v.value <= 0xffff
  {
    if text == [] then Some(0)
    else
      var before := PortValue(text[..|text| - 1]);
      if before.None? then None
      else
        var v := before.value * 10 + (text[|text| - 1] as int - 48);
        if 0 <= v <= 0xffff then Some(v) else None
  }

  /** Of digits it is their value, unless that is above 65535. */
  lemma {:induction false} PortValueOfDigits(text: string)
    requires forall i :: 0 <= i < |text| ==> IsDigit(text[i])
    ensures PortValue(text) == if ParseNat(text) <= 0xffff then Some(ParseNat(text)) else None
    decreases |text|
  {
    if text != [] {
      var n := |text| - 1;
      PortValueOfDigits(text[..n]);
      ParseNatGrows(text, n);
      assert IsDigit(text[n]);
    }
  }

  /** http_parser_parse_url: None is the error return. */
  function ParseUrl(buf: string, connect: bool): (u: Option<Url>)
    ensures u.Some? ==> Bounded(u.value.fields, |buf|)
  {
    var a := Scan(buf, connect, |buf|);
    if buf == "" || a.s.Dead? || (Schema in a.fields && Host !in a.fields) then None
    else
      var host := if Host in a.fields then ParseHost(buf, a.at, a.fields) else Some(a.fields);
      if host.None? || (connect && host.value.Keys != {Host, Port}) then None
      else if Port !in host.value then Some(Url(host.value, 0))
      else
        var port := PortValue(Text(buf, host.value[Port]));
        if port.None? then None else Some(Url(host.value, port.value))
  }
}
