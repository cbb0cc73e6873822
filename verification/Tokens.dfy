/**
 The bearer tokens shared by auth-service (security/jwt.go) and the API gateway
 (security/jwt.go): the JWS compact form of RFC 7515, section 3.1, signed with HS256.
 */
module Tokens {
  import opened Wrappers
  import opened Text

  const NANOS := 1_000_000_000
  const HS256 := "HS256"

  datatype Claims = Claims(
    issuer: string, subject: string, sessionID: string, email: string,
    name: string, picture: string, issuedAt: int, expiresAt: int)

  /** Free of white space, as the base64url alphabet is. */
  ghost predicate Unspaced(s: string) { forall i :: 0 <= i < |s| ==> !IsSpace(s[i]) }

  /** base64url without padding, encoding/json and HMAC-SHA256, as far as tokens depend on them. */
  datatype Primitives = Primitives(
    encode: string -> string, decode: string -> Option<string>,
    marshal: Claims -> string, unmarshal: string -> Option<Claims>,
    header: string, algorithm: string -> Option<string>, typed: string -> bool,
    mac: (string, string) -> string)
  {
    ghost predicate Lawful() {
      && (forall x :: decode(encode(x)) == Some(x) && '.' !in encode(x) && Unspaced(encode(x)))
      && (forall c :: unmarshal(marshal(c)) == Some(c))
      && algorithm(header) == Some(HS256) && typed(header)
    }

    function Sign(message: string, secret: string): string { encode(mac(message, secret)) }
  }

  function Unix(t: int): int { t / NANOS }

  // ---- strings.Split(token, ".") ----

  function Split(s: string): (parts: seq<string>)
    ensures parts != []
  {
    if s == "" then [""]
    else
      var rest := Split(s[1..]);
      if s[0] == '.' then [""] + rest else [[s[0]] + rest[0]] + rest[1..]
  }

  lemma {:induction false} SplitPart(a: string, rest: string)
    requires '.' !in a
    ensures Split(a + "." + rest) == [a] + Split(rest)
    ensures Split(a) == [a]
  {
    var s := a + "." + rest;
    if a == "" {
      assert s[1..] == rest;
    } else {
      SplitPart(a[1..], rest);
      assert s[1..] == a[1..] + "." + rest;
      assert [a[0]] + a[1..] == a;
    }
  }

  lemma SplitCompact(h: string, p: string, sig: string)
    requires '.' !in h && '.' !in p && '.' !in sig
    ensures Split(h + "." + p + "." + sig) == [h, p, sig]
  {
    hide Split;
    SplitPart(h, p + "." + sig);
    SplitPart(p, sig);
    SplitPart(sig, "");
    assert h + "." + (p + "." + sig) == h + "." + p + "." + sig;
  }

  lemma {:induction false} SplitHasNoDots(s: string)
    ensures forall i :: 0 <= i < |Split(s)| ==> '.' !in Split(s)[i]
  {
    if s != "" {
      SplitHasNoDots(s[1..]);
      var rest := Split(s[1..]);
      forall i | 0 <= i < |Split(s)| ensures '.' !in Split(s)[i] {
        if s[0] == '.' { if i > 0 { assert Split(s)[i] == rest[i - 1]; } }
        else if i > 0 { assert Split(s)[i] == rest[1..][i - 1]; }
        else { assert '.' !in rest[0]; }
      }
    }
  }

  function Join(parts: seq<string>): string {
    if parts == [] then "" else if |parts| == 1 then parts[0] else parts[0] + "." + Join(parts[1..])
  }

  lemma {:induction false} JoinSplit(s: string)
    ensures Join(Split(s)) == s
  {
    if s != "" {
      JoinSplit(s[1..]);
      var rest := Split(s[1..]);
      if s[0] == '.' {
        assert ([""] + rest)[1..] == rest;
      } else {
        var parts := [[s[0]] + rest[0]] + rest[1..];
        assert parts[1..] == rest[1..];
        assert Join(parts) == [s[0]] + Join(rest);
      }
    }
  }

  // ---- Issue and Parse ----

  datatype Issuer = Issuer(secret: string, issuer: string, ttl: int)

  datatype AuthUser = AuthUser(id: string, email: string, name: string, profilePicURL: string)

  function ClaimsFor(m: Issuer, user: AuthUser, sessionID: string, now: int): Claims {
    Claims(m.issuer, user.id, sessionID, user.email, user.name, user.profilePicURL, Unix(now), Unix(now + m.ttl))
  }

  function Issue(p: Primitives, m: Issuer, user: AuthUser, sessionID: string, now: int): string {
    var signingInput := p.encode(p.header) + "." + p.encode(p.marshal(ClaimsFor(m, user, sessionID, now)));
    signingInput + "." + p.Sign(signingInput, m.secret)
  }

  /** What a verifier knows: the auth-service also wants a well-typed "typ" header field. */
  datatype Verifier = Verifier(secret: string, issuer: string, wantsTyp: bool)

  function CheckClaims(v: Verifier, c: Claims, now: int): Result<Claims, string> {
    if c.subject == "" || c.sessionID == "" then Err("token claims are incomplete")
    else if c.issuer != "" && v.issuer != "" && c.issuer != v.issuer then Err("token issuer is invalid")
    else if c.expiresAt <= Unix(now) then Err("token has expired")
    else Ok(c)
  }

  function CheckPayload(p: Primitives, v: Verifier, payload: string, now: int): Result<Claims, string> {
    var bytes := p.decode(payload);
    if bytes.None? then Err("decode token payload")
    else
      var claims := p.unmarshal(bytes.value);
      if claims.None? then Err("parse token payload") else CheckClaims(v, claims.value, now)
  }

  function Parse(p: Primitives, v: Verifier, token: string, now: int): Result<Claims, string> {
    var parts := Split(token);
    if |parts| != 3 then Err("token format is invalid")
    else
      var header := p.decode(parts[0]);
      if header.None? then Err("decode token header")
      else if p.algorithm(header.value).None? || (v.wantsTyp && !p.typed(header.value)) then Err("parse token header")
      else if p.algorithm(header.value) != Some(HS256) then Err("token algorithm is not supported")
      else if p.Sign(parts[0] + "." + parts[1], v.secret) != parts[2] then Err("token signature is invalid")
      else CheckPayload(p, v, parts[1], now)
  }

  /** A token parses back to exactly the claims it was issued with, or to the first failing check on them. */
  lemma IssueThenParse(p: Primitives, m: Issuer, v: Verifier, user: AuthUser, sessionID: string, issuedAt: int, now: int)
    requires p.Lawful() && v.secret == m.secret
    ensures Parse(p, v, Issue(p, m, user, sessionID, issuedAt), now) == CheckClaims(v, ClaimsFor(m, user, sessionID, issuedAt), now)
  {
    hide CheckClaims, ClaimsFor, Split;
    var c := ClaimsFor(m, user, sessionID, issuedAt);
    var h, pl := p.encode(p.header), p.encode(p.marshal(c));
    SplitCompact(h, pl, p.Sign(h + "." + pl, m.secret));
    assert p.decode(h) == Some(p.header) && p.decode(pl) == Some(p.marshal(c)) && p.unmarshal(p.marshal(c)) == Some(c);
  }

  /** The signing input of a token, if its signature is valid under the secret. */
  function Signed(p: Primitives, secret: string, token: string): Option<string> {
    var parts := Split(token);
    if |parts| == 3 && p.Sign(parts[0] + "." + parts[1], secret) == parts[2] then Some(parts[0] + "." + parts[1]) else None
  }

  /** Only a validly signed token parses, and it is its signing input plus the signature. */
  lemma ParsedIsSigned(p: Primitives, v: Verifier, token: string, now: int)
    requires Parse(p, v, token, now).Ok?
    ensures Signed(p, v.secret, token).Some?
  {
  }

  lemma SignedDeterminesToken(p: Primitives, secret: string, token: string)
    requires Signed(p, secret, token).Some?
    ensures token == Signed(p, secret, token).value + "." + p.Sign(Signed(p, secret, token).value, secret)
  {
    hide Split;
    JoinSplit(token);
    var parts := Split(token);
    assert Join(parts[2..]) == parts[2];
    assert parts[1..][1..] == parts[2..];
    assert Join(parts[1..]) == parts[1] + "." + parts[2];
    assert token == parts[0] + "." + (parts[1] + "." + parts[2]);
  }

  /** With one secret and issuer, the two services accept the same tokens, up to the "typ" field. */
  lemma {:induction false} VerifiersAgree(p: Primitives, secret: string, issuer: string, token: string, now: int)
    ensures var auth, gateway := Parse(p, Verifier(secret, issuer, true), token, now), Parse(p, Verifier(secret, issuer, false), token, now);
      && (auth.Ok? ==> gateway == auth)
      && (gateway.Ok? && p.typed(p.decode(Split(token)[0]).value) ==> auth == gateway)
  {
    hide Split;
  }

  /** What Issue puts into a token, by claim. */
  lemma IssuedClaims(m: Issuer, user: AuthUser, sessionID: string, now: int)
    ensures var c := ClaimsFor(m, user, sessionID, now);
      && c.issuer == m.issuer && c.subject == user.id && c.sessionID == sessionID
      && c.email == user.email && c.name == user.name && c.picture == user.profilePicURL
      && c.issuedAt == now / 1_000_000_000 && c.expiresAt == (now + m.ttl) / 1_000_000_000
  {
  }

  /** A token that parses names HS256 and is signed over its first two parts. */
  lemma ParsedIsHS256(p: Primitives, v: Verifier, token: string, now: int)
    requires Parse(p, v, token, now).Ok?
    ensures var parts := Split(token);
      && |parts| == 3 && p.decode(parts[0]).Some? && p.algorithm(p.decode(parts[0]).value) == Some("HS256")
      && parts[2] == p.encode(p.mac(parts[0] + "." + parts[1], v.secret))
  {
    hide Split, CheckPayload;
  }

  // ---- The bearer prefix, stripped alike by both services ----

  function BearerToken(header: string): string {
    var token := TrimSpace(header);
    if |token| >= 7 && ToLower(token)[..7] == "bearer " then TrimSpace(token[7..]) else token
  }

  /** "bearer" in any mixture of cases. */
  predicate SpellsBearer(s: string) {
    |s| == 6 && s[0] in {'b', 'B'} && s[1] in {'e', 'E'} && s[2] in {'a', 'A'} && s[3] in {'r', 'R'} && s[4] in {'e', 'E'} && s[5] in {'r', 'R'}
  }

  /** A trimmed header that starts with the scheme and a blank. */
  ghost predicate NamesBearer(s: string) {
    |s| >= 7 && SpellsBearer(s[..6]) && s[6] == ' '
  }

  lemma BearerPrefix(s: string)
    ensures |s| >= 7 && ToLower(s)[..7] == "bearer " <==> NamesBearer(s)
  {
    if |s| >= 7 {
      var low := ToLower(s)[..7];
      assert forall i :: 0 <= i < 7 ==> low[i] == ToLower(s)[i];
      LowersTo(s, 0, 'b');
      LowersTo(s, 1, 'e');
      LowersTo(s, 2, 'a');
      LowersTo(s, 3, 'r');
      LowersTo(s, 4, 'e');
      LowersTo(s, 5, 'r');
      assert ToLower(s)[6] == ' ' <==> s[6] == ' ';
      SevenChars(low, "bearer ");
    }
  }

  lemma SevenChars(s: string, t: string)
    requires |s| == 7 && |t| == 7
    ensures s == t <==> s[0] == t[0] && s[1] == t[1] && s[2] == t[2] && s[3] == t[3] && s[4] == t[4] && s[5] == t[5] && s[6] == t[6]
  {
  }

  /** The scheme in any case, and the white space around it and the token, are taken off. */
  lemma SchemeIsStripped(before: string, scheme: string, between: string, t: string, after: string)
    requires OnlySpaces(before) && OnlySpaces(between) && OnlySpaces(after) && SpellsBearer(scheme) && t != "" && Trimmed(t)
    ensures BearerToken(before + scheme + " " + between + t + after) == t
  {
    hide IsSpace, TrimSpace, ToLower;
    var inner := scheme + " " + between + t;
    assert Trimmed(inner) by {
      assert inner[0] == scheme[0] && inner[|inner| - 1] == t[|t| - 1];
      SchemeIsUnspaced(scheme);
    }
    assert before + scheme + " " + between + t + after == before + inner + after;
    TrimExactly(before, inner, after);
    assert inner[..6] == scheme && inner[6] == ' ';
    BearerPrefix(inner);
    assert inner[7..] == between + t + "";
    TrimExactly(between, t, "");
  }

  /** The header as clients send it. */
  lemma UsualHeader(t: string)
    requires t != "" && Trimmed(t)
    ensures BearerToken("Bearer " + t) == t
  {
    SchemeIsStripped("", "Bearer", "", t, "");
    hide BearerToken;
    assert "" + "Bearer" + " " + "" + t + "" == "Bearer " + t;
  }

  lemma SchemeIsUnspaced(scheme: string)
    requires SpellsBearer(scheme)
    ensures !IsSpace(scheme[0])
  {
  }

  /** A header without the scheme is used as it is, without the white space around it. */
  lemma OthersAreKept(before: string, t: string, after: string)
    requires OnlySpaces(before) && OnlySpaces(after) && Trimmed(t) && !NamesBearer(t)
    ensures BearerToken(before + t + after) == t
  {
    TrimExactly(before, t, after);
    BearerPrefix(t);
    hide IsSpace, TrimSpace, ToLower;
  }
}
