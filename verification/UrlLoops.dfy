/** The loops of the URL parser, over a struct http_parser_url that they fill in. */
module UrlLoops {
  import opened Wrappers
  import opened UrlParser

  /** struct http_parser_url */
  class HttpParserUrl {
    var fields: Fields
    var port: nat

    /** http_parser_url_init */
    constructor ()
      ensures fields == map[] && port == 0
    {
      fields, port := map[], 0;
    }

    /** The switch in http_parse_host's loop. */
    method ExtendField(c: char, p: nat, s: HostState, newS: HostState)
      requires Host in fields && newS == ParseHostChar(s, c)
      modifies `fields
      ensures HostLoop(newS, fields) == HostNext(HostLoop(s, old(fields)), c, p)
    {
      match newS
      case InHost =>
        if !s.InHost? { fields := fields[Host := fields[Host].(off := U16(p))]; }
        fields := fields[Host := Longer(fields[Host])];
      case InV6 =>
        if !s.InV6? { fields := fields[Host := fields[Host].(off := U16(p))]; }
        fields := fields[Host := Longer(fields[Host])];
      case ZoneStart => fields := fields[Host := Longer(fields[Host])];
      case InZone => fields := fields[Host := Longer(fields[Host])];
      case InPort =>
        if !s.InPort? || Port !in fields { fields := fields[Port := Range(U16(p), 0)]; }
        fields := fields[Port := Longer(fields[Port])];
      case InUserinfo =>
        if !s.InUserinfo? || Userinfo !in fields { fields := fields[Userinfo := Range(U16(p), 0)]; }
        fields := fields[Userinfo := Longer(fields[Userinfo])];
      case _ =>
    }

    /** The states in which a host must not end. */
    static method StopsEarly(s: HostState) returns (failed: bool)
      ensures failed <==> !s.InHost? && !s.V6End? && !s.InPort? && !s.HostDead?
    {
      match s
      case HostStart => return true;
      case V6Start => return true;
      case InV6 => return true;
      case ZoneStart => return true;
      case InZone => return true;
      case PortStart => return true;
      case InUserinfo => return true;
      case UserinfoStart => return true;
      case _ => return false;
    }

    method ParseHost(buf: string, foundAt: bool) returns (failed: bool)
      requires Host in fields && Port !in fields && Userinfo !in fields && Bounded(fields, |buf|)
      modifies `fields
      ensures match UrlParser.ParseHost(buf, foundAt, old(fields))
        case None => failed
        case Some(r) => !failed && fields == r
    {
      var from := fields[Host].off;
      var end := from + fields[Host].len;
      fields := fields[Host := Range(from, 0)];
      ghost var start := fields;
      var s := if foundAt then UserinfoStart else HostStart;
      var p := from;
      hide ParseHostChar, HostNext, BeforeHost, HostScan, Bounded;
      HostScanStarts(buf, foundAt, start, from);
      while p < end
        invariant from <= p <= end
        invariant HostLoop(s, fields) == HostScan(buf, foundAt, start, from, p)
        invariant !s.HostDead?
      {
        var newS := ParseHostChar(s, buf[p]);
        HostScanStep(buf, foundAt, start, from, p);
        if newS.HostDead? {
          DeadHost(buf, foundAt, start, from, p + 1, end);
          return true;
        }
        ExtendField(buf[p], p, s, newS);
        s := newS;
        p := p + 1;
      }
      failed := StopsEarly(s);
    }

    method ParseUrl(buf: string, connect: bool) returns (failed: bool)
      modifies this
      ensures match UrlParser.ParseUrl(buf, connect)
        case None => failed
        case Some(u) => !failed && Url(fields, port) == u
    {
      if buf == "" { return true; }
      port := 0;
      fields := map[];
      var s := if connect then ServerStart else SpacesBeforeUrl;
      var last: Option<Field> := None;
      var foundAt := false;
      var p := 0;
      while p < |buf|
        invariant 0 <= p <= |buf|
        invariant Loop(s, last, foundAt, fields) == Scan(buf, connect, p)
        invariant port == 0 && !s.Dead?
      {
        s := ParseUrlChar(s, buf[p]);
        if s.Dead? {
          DeadUrl(buf, connect, p + 1, |buf|);
          return true;
        }
        p := p + 1;
        var field := FieldOf(s);
        if field.None? { continue; }
        if s.ServerWithAt? { foundAt := true; }
        var uf := field.value;
        if Some(uf) == last {
          fields := fields[uf := Longer(fields[uf])];
          continue;
        }
        fields := fields[uf := Range(U16(p - 1), 1)];
        last := Some(uf);
      }
      if Schema in fields && Host !in fields { return true; }
      if Host in fields {
        failed := ParseHost(buf, foundAt);
        if failed { return; }
      }
      if connect && fields.Keys != {Host, Port} { return true; }
      failed := false;
      if Port in fields {
        failed := ParsePort(buf);
      }
    }

    method ParsePort(buf: string) returns (failed: bool)
      requires Port in fields && fields[Port].off + fields[Port].len <= |buf|
      modifies `port
      ensures match PortValue(Text(buf, fields[Port]))
        case None => failed
        case Some(v) => !failed && port == v
    {
      var text := Text(buf, fields[Port]);
      var v: int := 0;
      var p := 0;
      assert text[..0] == "";
      while p < |text|
        invariant 0 <= p <= |text| && 0 <= v && PortValue(text[..p]) == Some(v)
      {
        assert text[..p + 1][..p] == text[..p];
        v := v * 10 + (text[p] as int - 48);
        p := p + 1;
        if v < 0 || v > 0xffff {
          NoPortValue(text, p);
          return true;
        }
      }
      assert text[..p] == text;
      port := v;
      return false;
    }
  }

  lemma {:induction false} NoPortValue(text: string, k: nat)
    requires k <= |text| && PortValue(text[..k]) == None
    ensures PortValue(text) == None
    decreases |text| - k
  {
    if k < |text| {
      assert text[..k + 1][..k] == text[..k];
      NoPortValue(text, k + 1);
    } else {
      assert text[..k] == text;
    }
  }

  lemma {:induction false} DeadUrl(buf: string, connect: bool, k: nat, n: nat)
    requires k <= n <= |buf| && Scan(buf, connect, k).s.Dead?
    ensures Scan(buf, connect, n).s.Dead?
    decreases n
  {
    if k < n { DeadUrl(buf, connect, k, n - 1); }
  }

  lemma HostScanStarts(buf: string, at: bool, fields: Fields, from: nat)
    requires from <= |buf| && Host in fields && fields[Host] == Range(from, 0) && Port !in fields && Userinfo !in fields
    ensures HostScan(buf, at, fields, from, from) == HostLoop(if at then UserinfoStart else HostStart, fields)
  {}

  lemma HostScanStep(buf: string, at: bool, fields: Fields, from: nat, k: nat)
    requires from <= k < |buf| && Host in fields && fields[Host] == Range(from, 0) && Port !in fields
    requires Userinfo !in fields
    ensures var a := HostScan(buf, at, fields, from, k);
      HostScan(buf, at, fields, from, k + 1) == HostNext(a, buf[k], k)
          && HostNext(a, buf[k], k).s == ParseHostChar(a.s, buf[k])
  {}

  lemma {:induction false} DeadHost(buf: string, at: bool, fields: Fields, from: nat, k: nat, n: nat)
    requires from <= k <= n <= |buf| && Host in fields && fields[Host] == Range(from, 0) && Port !in fields
    requires Userinfo !in fields
    requires HostScan(buf, at, fields, from, k).s.HostDead?
    ensures HostScan(buf, at, fields, from, n).s.HostDead?
    decreases n
  {
    if k < n { DeadHost(buf, at, fields, from, k, n - 1); }
  }
}
