/** JWT tokens: generation, parsing and verification over an abstract MAC (section 7.1 of RFC 7515). */
module Token {
  import opened Wrappers
  import opened Bytes
  import opened Base64Url
  import opened Claims

  /** HMAC-SHA256 of a message under a key: some function to 32 bytes. */
  type Mac = f: (string, string) -> seq<Byte> | forall k, m :: |f(k, m)| == 32
    witness (k: string, m: string) => seq(32, i => 0)

  const Header := HEAD + "HS256" + TAIL
  const HEAD := "{\"alg\":\""
  const TAIL := "\",\"typ\":\"JWT\"}"

  /** Secrets, clock and the blacklist's answer for a jti: everything a call reads from outside. */
  datatype Environment = Environment(current: string, previous: string, now: int, blacklisted: string -> bool)

  function EncodeText(t: string): string {
    Encode(ToBytes(t))
  }

  function DecodeText(t: string): string {
    FromBytes(Decode(t))
  }

  /** hmacSha256 */
  function Sign(mac: Mac, key: string, data: string): string {
    Encode(mac(key, data))
  }

  /** The token of a set of claims. */
  function TokenOf(mac: Mac, secret: string, c: JwtClaims): string {
    var data := EncodeText(Header) + "." + EncodeText(Serialize(c));
    data + "." + Sign(mac, secret, data)
  }

  /** The claims generateToken fills in, with the random jti and the clock as inputs. */
  function NewClaims(userId: int, username: string, nickname: string, roles: seq<string>, expiresIn: int, jti: string,
          now: int): JwtClaims {
    JwtClaims(userId, username, nickname, roles, jti, now, now + expiresIn, "blog_server")
  }

  /** parseToken: success, what became of the claims, and the signature segment. */
  function ParseToken(token: string, c0: JwtClaims): (bool, JwtClaims, string) {
    match Find(token, ".", 0)
    case None => (false, c0, "")
    case Some(dot1) =>
    match Find(token, ".", dot1 + 1)
    case None => (false, c0, "")
    case Some(dot2) =>
    var signature := token[dot2 + 1..];
    if Find(DecodeText(token[..dot1]), "HS256", 0).None? then (false, c0, signature)
    else
      var (ok, c) := Parse(DecodeText(token[dot1 + 1..dot2]), c0);
      (ok, c, signature)
  }

  predicate ValidStructure(c: JwtClaims) {
    c.userId > 0 && c.username != "" && c.nickname != "" && c.jti != "" && c.iat > 0 && c.exp > c.iat
  }

  /** isInBlacklist: by the jti of the token as far as it can be read, which an empty one escapes. */
  predicate InBlacklist(token: string, env: Environment) {
    var (ok, c, _) := ParseToken(token, NoClaims);
    ok && c.jti != "" && env.blacklisted(c.jti)
  }

  /** find_last_of('.'): None is npos. */
  function LastDot(t: string): (p: Option<nat>)
    ensures p.Some? ==> p.value < |t| && t[p.value] == '.' && forall i :: p.value < i < |t| ==> t[i] != '.'
    ensures p.None? ==> '.' !in t
  {
    if t == [] then None
    else if t[|t| - 1] == '.' then Some(|t| - 1)
    else
      assert t == t[..|t| - 1] + [t[|t| - 1]];
      LastDot(t[..|t| - 1])
  }

  /** verifyToken */
  function Verify(mac: Mac, env: Environment, token: string, c0: JwtClaims): (bool, JwtClaims) {
    if InBlacklist(token, env) then (false, c0)
    else
      var (ok, c, signature) := ParseToken(token, c0);
      if !ok || !ValidStructure(c) || env.now > c.exp then (false, c)
      else
        var dot := LastDot(token);
        var data := if dot.Some? then token[..dot.value] else token;
        (|| Sign(mac, env.current, data) == signature
         || (env.previous != "" && env.previous != env.current && Sign(mac, env.previous, data) == signature), c)
  }

  // ---------- segments ----------

  lemma HeaderDecodes()
    ensures DecodeText(EncodeText(Header)) == Header && Find(Header, "HS256", 0).Some?
  {
    Base64Url.RoundTrip(ToBytes(Header));
    assert Octets(HEAD) && Octets("HS256") && Octets(TAIL);
    hide Encode, Decode;
    TextBytesText(Header);
    assert Header[|HEAD|..|HEAD| + 5] == "HS256";
    assert StandsAt(Header, "HS256", |HEAD|);
    hide Find, StandsAt;
  }

  predicate Dotless(t: string) { '.' !in t }

  /** What the signature is computed over. */
  function SignedPart(h: string, p: string): string {
    h + "." + p
  }

  function Joined(h: string, p: string, g: string): string {
    SignedPart(h, p) + "." + g
  }

  lemma FirstDot(s: string, from: nat, e: nat)
    requires from <= e < |s| && s[e] == '.' && Dotless(s[from..e])
    ensures Find(s, ".", from) == Some(e)
  {
    hide Find;
    assert s[e..e + 1] == ".";
    forall i | from <= i < e ensures !StandsAt(s, ".", i) {
      assert s[i] == s[from..e][i - from];
      StandsNot(s, ".", i);
    }
    FindIs(s, ".", from, e);
  }

  lemma FinalDot(s: string, e: nat)
    requires e < |s| && s[e] == '.' && Dotless(s[e + 1..])
    ensures LastDot(s) == Some(e)
  {
    hide LastDot;
    forall i | e < i < |s| ensures s[i] != '.' {
      assert s[i] == s[e + 1..][i - e - 1];
    }
    assert LastDot(s).Some?;
  }

  lemma JoinedParts(h: string, p: string, g: string)
    ensures var t, d1, d2 := Joined(h, p, g), |h|, |h| + 1 + |p|;
      && d2 < |t| && t[d1] == '.' && t[d2] == '.' && d2 == |SignedPart(h, p)|
      && t[..d1] == h && t[0..d1] == h && t[d1 + 1..d2] == p && t[d2 + 1..] == g && t[..d2] == SignedPart(h, p)
  {}

  /** A token of three dot-free segments splits into them, at the second dot and at the last alike. */
  lemma Splits(h: string, p: string, g: string, c0: JwtClaims)
    requires Dotless(h) && Dotless(p) && Dotless(g)
    ensures LastDot(Joined(h, p, g)) == Some(|SignedPart(h, p)|)
    ensures |SignedPart(h, p)| <= |Joined(h, p, g)| && Joined(h, p, g)[..|SignedPart(h, p)|] == SignedPart(h, p)
    ensures ParseToken(Joined(h, p, g), c0) == ParseSegments(h, p, g, c0)
  {
    JoinedParts(h, p, g);
    hide Find, LastDot, Parse, DecodeText, Joined, SignedPart, Dotless;
    var t, d1, d2 := Joined(h, p, g), |h|, |h| + 1 + |p|;
    FirstDot(t, 0, d1);
    FirstDot(t, d1 + 1, d2);
    FinalDot(t, d2);
  }

  /** What parseToken does with the three segments. */
  function ParseSegments(h: string, p: string, g: string, c0: JwtClaims): (bool, JwtClaims, string) {
    if Find(DecodeText(h), "HS256", 0).None? then (false, c0, g)
    else (Parse(DecodeText(p), c0).0, Parse(DecodeText(p), c0).1, g)
  }

  lemma SignatureHasNoDot(mac: Mac, key: string, data: string)
    ensures Dotless(Sign(mac, key, data))
  {
    Base64Url.RoundTrip(mac(key, data));
  }

  /** The signature of the signed part under a secret the server still accepts. */
  predicate Signed(mac: Mac, env: Environment, h: string, p: string, g: string) {
    || g == Sign(mac, env.current, SignedPart(h, p))
    || (env.previous != "" && g == Sign(mac, env.previous, SignedPart(h, p)))
  }

  /** What verification makes of a token of three segments. */
  lemma VerifySegments(mac: Mac, env: Environment, h: string, p: string, g: string, c0: JwtClaims)
    requires Dotless(h) && Dotless(p) && Dotless(g)
    requires !InBlacklist(Joined(h, p, g), env)
    ensures var (ok, c) := Verify(mac, env, Joined(h, p, g), c0);
      && c == ParseSegments(h, p, g, c0).1
      && (ok <==> ParseSegments(h, p, g, c0).0 && ValidStructure(c) && env.now <= c.exp && Signed(mac, env, h, p, g))
  {
    Splits(h, p, g, c0);
    hide Find, Parse, DecodeText, SignedPart, Dotless, ParseToken, ParseSegments, InBlacklist, Joined, LastDot, Sign;
    hide ValidStructure;
  }

  // ---------- acceptance ----------

  /** The token of a set of claims, signed with the current secret or the one before, is accepted and
      gives the claims back, exactly when they are valid, unexpired, not blacklisted and clean. */
  lemma GeneratedIsAccepted(mac: Mac, env: Environment, secret: string, c: JwtClaims)
    requires secret == env.current || (secret == env.previous && secret != "")
    requires Int64(c.userId) && Int64(c.iat) && Int64(c.exp) && Octets(Serialize(c))
    ensures Verify(mac, env, TokenOf(mac, secret, c), NoClaims) == (true, c)
      <==> ValidStructure(c) && env.now <= c.exp && !env.blacklisted(c.jti) && Clean(c)
  {
    var h, p := EncodeText(Header), EncodeText(Serialize(c));
    var g := Sign(mac, secret, SignedPart(h, p));
    HeaderDecodes();
    Base64Url.RoundTrip(ToBytes(Header));
    Base64Url.RoundTrip(ToBytes(Serialize(c)));
    TextBytesText(Serialize(c));
    SignatureHasNoDot(mac, secret, SignedPart(h, p));
    assert DecodeText(p) == Serialize(c)
        && ParseSegments(h, p, g, NoClaims) == (Parse(Serialize(c), NoClaims).0, Parse(Serialize(c), NoClaims).1, g);
    Splits(h, p, g, NoClaims);
    Claims.RoundTrip(c);
    assert TokenOf(mac, secret, c) == Joined(h, p, g);
    assert InBlacklist(Joined(h, p, g), env) <==>
      Parse(Serialize(c), NoClaims).0 && Parse(Serialize(c), NoClaims).1.jti != ""
          && env.blacklisted(Parse(Serialize(c), NoClaims).1.jti);
    if !InBlacklist(Joined(h, p, g), env) { VerifySegments(mac, env, h, p, g, NoClaims); }
    hide ParseToken, ParseSegments, InBlacklist, Joined, Parse, Serialize, Sign, EncodeText, DecodeText, TokenOf, Clean;
  }

  /** The token that generateToken makes at time iat, verified later: its fixed issuer is clean, so this
      depends on its arguments, the random jti and the clocks alone. */
  lemma NewTokenIsAccepted(mac: Mac, env: Environment, secret: string, userId: int, username: string, nickname: string,
                           roles: seq<string>, expiresIn: int, jti: string, iat: int)
    requires secret == env.current || (secret == env.previous && secret != "")
    requires Int64(userId) && Int64(iat) && Int64(iat + expiresIn)
    requires Octets(Serialize(NewClaims(userId, username, nickname, roles, expiresIn, jti, iat)))
    ensures var c := NewClaims(userId, username, nickname, roles, expiresIn, jti, iat);
      var filled := userId > 0 && username != "" && nickname != "" && jti != "" && iat > 0 && expiresIn > 0;
      var clean := QuoteFree(username) && QuoteFree(nickname) && QuoteFree(jti) && RolesClean(roles);
      Verify(mac, env, TokenOf(mac, secret, c), NoClaims) == (true, c) <==>
        filled && clean && env.now <= iat + expiresIn && !env.blacklisted(jti)
  {
    hide Verify, TokenOf, Serialize, RolesClean;
    GeneratedIsAccepted(mac, env, secret, NewClaims(userId, username, nickname, roles, expiresIn, jti, iat));
  }

  // ---------- what an accepted token is ----------

  /** The token splits at exactly two dots, its third segment is the MAC of everything before the last
      dot under an accepted secret, and the claims are those of the second segment. */
  ghost predicate Genuine(mac: Mac, env: Environment, token: string, c0: JwtClaims, c: JwtClaims, h: string,
          p: string, g: string) {
    && token == Joined(h, p, g) && Dotless(h) && Dotless(p) && Dotless(g)
    && Signed(mac, env, h, p, g)
    && Find(DecodeText(h), "HS256", 0).Some?
    && Parse(DecodeText(p), c0) == (true, c)
    && ValidStructure(c) && env.now <= c.exp
  }

  /** A parsed token splits at its first two dots. */
  lemma ParsedSplits(token: string, c0: JwtClaims)
    requires ParseToken(token, c0).0
    ensures exists h, p :: token == Joined(h, p, ParseToken(token, c0).2) && Dotless(h) && Dotless(p)
  {
    hide Find, Parse, DecodeText, Joined, Dotless;
    var d1 := Find(token, ".", 0).value;
    var d2 := Find(token, ".", d1 + 1).value;
    BeforeDot(token, 0);
    BeforeDot(token, d1 + 1);
    Rejoined(token, d1, d2);
    assert ParseToken(token, c0).2 == token[d2 + 1..];
  }

  lemma Rejoined(t: string, d1: nat, d2: nat)
    requires d1 < d2 < |t| && t[d1] == '.' && t[d2] == '.'
    ensures t == Joined(t[0..d1], t[d1 + 1..d2], t[d2 + 1..])
  {}

  lemma BeforeDot(t: string, from: nat)
    requires Find(t, ".", from).Some?
    ensures from <= Find(t, ".", from).value < |t| && t[Find(t, ".", from).value] == '.'
    ensures Dotless(t[from..Find(t, ".", from).value])
  {
    var d := Find(t, ".", from).value;
    hide Find;
    assert t[d..d + 1][0] == t[d];
    forall i | from <= i < d ensures t[i] != '.' {
      assert !StandsAt(t, ".", i);
      assert t[i..i + 1] == [t[i]];
    }
  }

  /** A last dot behind which the signature has another dot is no obstacle: such a token is refused. */
  lemma AcceptedHasPlainSignature(mac: Mac, env: Environment, token: string, c0: JwtClaims)
    requires Verify(mac, env, token, c0).0
    ensures Dotless(ParseToken(token, c0).2)
  {
    var dot := LastDot(token);
    var data := if dot.Some? then token[..dot.value] else token;
    SignatureHasNoDot(mac, env.current, data);
    SignatureHasNoDot(mac, env.previous, data);
    hide LastDot, ParseToken, InBlacklist, Sign, ValidStructure;
  }

  /** verifyToken accepts exactly the genuine tokens that are not blacklisted, with their claims. */
  lemma AcceptedIsGenuine(mac: Mac, env: Environment, token: string, c0: JwtClaims, c: JwtClaims)
    ensures Verify(mac, env, token, c0) == (true, c)
      <==> !InBlacklist(token, env) && exists h, p, g :: Genuine(mac, env, token, c0, c, h, p, g)
  {
    hide Joined, Sign, DecodeText, InBlacklist, ParseToken, LastDot, Parse, ValidStructure, Find;
    if Verify(mac, env, token, c0) == (true, c) {
      AcceptedHasPlainSignature(mac, env, token, c0);
      ParsedSplits(token, c0);
      var g := ParseToken(token, c0).2;
      var h, p :| token == Joined(h, p, g) && Dotless(h) && Dotless(p);
      Splits(h, p, g, c0);
      VerifySegments(mac, env, h, p, g, c0);
      assert Genuine(mac, env, token, c0, c, h, p, g);
    }
    if h, p, g :| !InBlacklist(token, env) && Genuine(mac, env, token, c0, c, h, p, g) {
      VerifySegments(mac, env, h, p, g, c0);
    }
  }

  // ---------- in terms of the octets ----------

  /** Whether and with which jti a payload can be read does not depend on the claims it is read into. */
  lemma ReadsAlike(json: string, a: JwtClaims, b: JwtClaims)
    ensures Parse(json, a).0 == Parse(json, b).0
    ensures Parse(json, a).0 ==> Parse(json, a).1.jti == Parse(json, b).1.jti
  {
    hide Find, Field, Stoll, ParseRoles;
  }

  /** The blacklist is asked for the jti of the claims. */
  lemma BlacklistIsAsked(h: string, p: string, g: string, env: Environment, c0: JwtClaims)
    requires Dotless(h) && Dotless(p) && Dotless(g) && ParseSegments(h, p, g, c0).0
    ensures var jti := ParseSegments(h, p, g, c0).1.jti;
      InBlacklist(Joined(h, p, g), env) <==> jti != "" && env.blacklisted(jti)
  {
    Splits(h, p, g, NoClaims);
    hide Find, Parse, DecodeText, Joined, SignedPart, Dotless, ParseToken, LastDot;
    ReadsAlike(DecodeText(p), c0, NoClaims);
  }

  /** The token has three segments without a dot, and the third is the base64url text of the MAC of everything
      before the last dot under this key. */
  ghost predicate MacFits(mac: Mac, key: string, token: string, h: string, p: string, g: string) {
    && token == h + "." + p + "." + g && '.' !in h && '.' !in p && '.' !in g
    && Decode(g) == mac(key, h + "." + p) && g == Encode(mac(key, h + "." + p))
  }

  /** A key that the server accepts. */
  predicate Accepts(env: Environment, key: string) {
    key == env.current || (key == env.previous && key != "")
  }

  /** The header names the algorithm, and the payload reads as the claims. */
  ghost predicate Reads(h: string, p: string, c0: JwtClaims, c: JwtClaims) {
    Claims.Find(FromBytes(Decode(h)), "HS256", 0).Some? && Parse(FromBytes(Decode(p)), c0) == (true, c)
  }

  lemma SignedFits(mac: Mac, env: Environment, token: string, h: string, p: string, g: string)
    requires token == Joined(h, p, g) && Dotless(h) && Dotless(p) && Dotless(g)
    ensures Signed(mac, env, h, p, g) ==> exists key :: Accepts(env, key) && MacFits(mac, key, token, h, p, g)
    ensures forall key :: Accepts(env, key) && MacFits(mac, key, token, h, p, g) ==> Signed(mac, env, h, p, g)
  {
    Base64Url.RoundTrip(mac(env.current, h + "." + p));
    Base64Url.RoundTrip(mac(env.previous, h + "." + p));
    hide Encode, Decode;
    if g == Sign(mac, env.current, h + "." + p) { assert MacFits(mac, env.current, token, h, p, g); }
    if g == Sign(mac, env.previous, h + "." + p) { assert MacFits(mac, env.previous, token, h, p, g); }
  }

  /** verifyToken accepts a token with these claims if and only if a key that the server accepts fits it, its
      first segment decodes to a header for HS256 and its second to a payload that reads as the claims, all
      claims are there, it is unexpired, and its jti is not blacklisted. */
  lemma AcceptedExactly(mac: Mac, env: Environment, token: string, c0: JwtClaims, c: JwtClaims)
    ensures Verify(mac, env, token, c0) == (true, c) <==>
      && c.userId > 0 && c.username != "" && c.nickname != "" && c.jti != "" && 0 < c.iat < c.exp
      && env.now <= c.exp && !env.blacklisted(c.jti)
      && exists h, p, g, key :: Accepts(env, key) && MacFits(mac, key, token, h, p, g) && Reads(h, p, c0, c)
  {
    AcceptedIsGenuine(mac, env, token, c0, c);
    hide Verify, Find, Parse, Encode, Decode, InBlacklist;
    if Verify(mac, env, token, c0) == (true, c) {
      var h, p, g :| Genuine(mac, env, token, c0, c, h, p, g);
      SignedFits(mac, env, token, h, p, g);
      BlacklistIsAsked(h, p, g, env, c0);
      hide MacFits, Signed, Joined;
      var key :| Accepts(env, key) && MacFits(mac, key, token, h, p, g);
      assert Reads(h, p, c0, c);
    }
    if ValidStructure(c) && env.now <= c.exp && !env.blacklisted(c.jti) {
      if h, p, g, key :| Accepts(env, key) && MacFits(mac, key, token, h, p, g) && Reads(h, p, c0, c) {
        assert token == Joined(h, p, g);
        SignedFits(mac, env, token, h, p, g);
        BlacklistIsAsked(h, p, g, env, c0);
        hide MacFits, Signed, Joined;
        assert Genuine(mac, env, token, c0, c, h, p, g);
      }
    }
  }

  /** A made token decodes, segment by segment, to the header, the printed claims and the MAC of the first two
      segments with the dot between them. */
  lemma TokenSegments(mac: Mac, secret: string, c: JwtClaims)
    requires Octets(Serialize(c))
    ensures exists h, p, g ::
      && MacFits(mac, secret, TokenOf(mac, secret, c), h, p, g)
      && FromBytes(Decode(h)) == "{\"alg\":\"HS256\",\"typ\":\"JWT\"}" && FromBytes(Decode(p)) == Serialize(c)
  {
    var h, p := EncodeText(Header), EncodeText(Serialize(c));
    var g := Sign(mac, secret, h + "." + p);
    HeaderIs();
    hide Encode, Decode, Serialize, ToBytes, FromBytes, Header, Sign, Octets;
    TextDecodes(Header);
    TextDecodes(Serialize(c));
    SignatureDecodes(mac, secret, h + "." + p);
    hide EncodeText, DecodeText;
    assert MacFits(mac, secret, TokenOf(mac, secret, c), h, p, g);
  }

  lemma HeaderIs()
    ensures Header == "{\"alg\":\"HS256\",\"typ\":\"JWT\"}" && Octets(Header)
  {
    assert Octets(HEAD) && Octets("HS256") && Octets(TAIL);
  }

  lemma TextDecodes(t: string)
    requires Octets(t)
    ensures FromBytes(Decode(EncodeText(t))) == t && '.' !in EncodeText(t)
  {
    Base64Url.RoundTrip(ToBytes(t));
    TextBytesText(t);
    hide Encode, Decode;
  }

  lemma SignatureDecodes(mac: Mac, key: string, data: string)
    ensures Sign(mac, key, data) == Encode(mac(key, data)) && Decode(Sign(mac, key, data)) == mac(key, data)
    ensures '.' !in Sign(mac, key, data)
  {
    Base64Url.RoundTrip(mac(key, data));
    hide Encode, Decode;
  }

  /** The token that generateToken makes at time iat, when it is accepted, gives back its arguments, the jti, the
      two times and the issuer, each in its own field. */
  lemma NewTokenReadsBack(mac: Mac, env: Environment, secret: string, userId: int, username: string, nickname: string,
                          roles: seq<string>, expiresIn: int, jti: string, iat: int)
    requires secret == env.current || (secret == env.previous && secret != "")
    requires Int64(userId) && Int64(iat) && Int64(iat + expiresIn)
    requires Octets(Serialize(NewClaims(userId, username, nickname, roles, expiresIn, jti, iat)))
    requires userId > 0 && username != "" && nickname != "" && jti != "" && iat > 0 && expiresIn > 0
    requires QuoteFree(username) && QuoteFree(nickname) && QuoteFree(jti) && RolesClean(roles)
    requires env.now <= iat + expiresIn && !env.blacklisted(jti)
    ensures var c := NewClaims(userId, username, nickname, roles, expiresIn, jti, iat);
      var (ok, read) := Verify(mac, env, TokenOf(mac, secret, c), NoClaims);
      && ok && read.userId == userId && read.username == username && read.nickname == nickname
      && read.roles == roles && read.jti == jti && read.iat == iat && read.exp == iat + expiresIn
      && read.issuer == "blog_server"
  {
    hide Verify, TokenOf, Serialize, RolesClean;
    NewTokenIsAccepted(mac, env, secret, userId, username, nickname, roles, expiresIn, jti, iat);
  }
}
