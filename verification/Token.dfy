/** Session tokens: issued by MyAuth (MyAuth/service/jwt.go), parsed, verified and checked for expiry by
    the gateway (MyGateway/auth/token.go, MyGateway/service/validator.go). */
module Token {
  import opened Options
  import opened GatewayErrors
  import opened Base64
  import opened Routing
  import opened HeaderAuth

  datatype TokenClaims =
    TokenClaims(login: string, role: string, sessionID: string, expiresAt: string, issuedAt: string)

  /** A moment, in nanoseconds of Unix time, seen from a time zone, in seconds east of UTC. */
  datatype Time = Time(nanos: int, offset: int)

  /** The library functions the tokens are made of: HMAC-SHA256 of a message under a key, JSON, and the
      RFC 3339 form of a time, of which parsing recovers the moment. */
  datatype Library = Library(
    hmac: (Bytes, Bytes) -> Bytes,
    marshal: TokenClaims -> Option<Bytes>,
    unmarshal: Bytes -> Option<TokenClaims>,
    format: Time -> string,
    parse: string -> Option<int>)

  const NANOS_PER_SECOND := 1_000_000_000
  const SECONDS_PER_DAY := 86_400
  const FIRST_SECOND_OF_YEAR_0 := -62_167_219_200
  const LAST_SECOND_OF_YEAR_9999 := 253_402_300_799

  function FloorToSecond(nanos: int): (r: int)
    ensures r <= nanos < r + NANOS_PER_SECOND && r % NANOS_PER_SECOND == 0
  {
    nanos / NANOS_PER_SECOND * NANOS_PER_SECOND
  }

  /** RFC 3339 (section 5.6) has four digits for the year and whole minutes for the zone. */
  ghost predicate Representable(t: Time) {
    && t.offset % 60 == 0 && -SECONDS_PER_DAY < t.offset < SECONDS_PER_DAY
    && FIRST_SECOND_OF_YEAR_0 <= t.nanos / NANOS_PER_SECOND + t.offset <= LAST_SECOND_OF_YEAR_9999
  }

  ghost predicate Continuation(s: string, n: nat) {
    |s| > n && forall i :: 1 <= i <= n ==> 0x80 <= s[i] as int <= 0xBF
  }

  /** UTF-8 (section 4 of RFC 3629), one character of the string for each byte. */
  ghost predicate ValidUtf8(s: string) {
    s == "" ||
    var c, d := s[0] as int, if |s| > 1 then s[1] as int else 0;
    if c <= 0x7F then ValidUtf8(s[1..])
    else if 0xC2 <= c <= 0xDF then Continuation(s, 1) && ValidUtf8(s[2..])
    else if 0xE0 <= c <= 0xEF then
      Continuation(s, 2) && (c == 0xE0 ==> d >= 0xA0) && (c == 0xED ==> d <= 0x9F) && ValidUtf8(s[3..])
    else if 0xF0 <= c <= 0xF4 then
      Continuation(s, 3) && (c == 0xF0 ==> d >= 0x90) && (c == 0xF4 ==> d <= 0x8F) && ValidUtf8(s[4..])
    else false
  }

  ghost predicate InUtf8(c: TokenClaims) {
    && ValidUtf8(c.login) && ValidUtf8(c.role) && ValidUtf8(c.sessionID)
    && ValidUtf8(c.expiresAt) && ValidUtf8(c.issuedAt)
  }

  /** What the libraries promise: claims in UTF-8 survive JSON, and a representable time survives its
      text form but for the fraction of a second. */
  ghost predicate Sound(lib: Library) {
    && (forall c: TokenClaims :: InUtf8(c) ==>
          lib.marshal(c).Some? && lib.unmarshal(lib.marshal(c).value) == Some(c))
    && (forall t :: Representable(t) ==>
          ValidUtf8(lib.format(t)) && lib.parse(lib.format(t)) == Some(FloorToSecond(t.nanos)))
  }

  // ---------- issuing ----------

  /** `CreateToken`, the same on both sides; None when the claims cannot be marshalled. */
  function CreateToken(lib: Library, login: string, role: string, sessionID: string, expiresAt: Time, issuedAt: Time,
                       secret: Bytes): Option<string>
  {
    var payload := lib.marshal(TokenClaims(login, role, sessionID, lib.format(expiresAt), lib.format(issuedAt)));
    if payload.None? then None
    else Some(Encode(payload.value) + "." + Encode(lib.hmac(secret, payload.value)))
  }

  // ---------- parsing ----------

  function IndexOf(s: string, c: char): (i: nat)
    ensures i <= |s| && c !in s[..i] && (i < |s| ==> s[i] == c)
  {
    if s == "" || s[0] == c then 0
    else
      var i := IndexOf(s[1..], c) + 1;
      assert s[..i] == [s[0]] + s[1..][..i - 1];
      i
  }

  lemma {:induction false} FirstIndex(s: string, c: char, k: nat)
    requires k < |s| && c !in s[..k] && s[k] == c
    ensures IndexOf(s, c) == k
    decreases k
  {
    if k > 0 {
      assert s[..k] == [s[0]] + s[1..][..k - 1];
      FirstIndex(s[1..], c, k - 1);
    }
  }

  /** `strings.SplitN` for a separator of one character: at most n parts. */
  function SplitN(s: string, sep: char, n: nat): seq<string>
    requires n > 0
  {
    var i := IndexOf(s, sep);
    if n == 1 || i == |s| then [s] else [s[..i]] + SplitN(s[i + 1..], sep, n - 1)
  }

  /** Splitting into at most three yields two parts exactly when there is one separator. */
  lemma TwoParts(s: string, sep: char, a: string, b: string)
    ensures SplitN(s, sep, 3) == [a, b] <==> s == a + [sep] + b && sep !in a && sep !in b
  {
    var i := IndexOf(s, sep);
    if i < |s| {
      assert s == s[..i] + [sep] + s[i + 1..];
      var rest := s[i + 1..];
      var j := IndexOf(rest, sep);
      if j == |rest| {
        assert rest[..j] == rest;
        assert SplitN(s, sep, 3) == [s[..i], rest];
      } else {
        assert |SplitN(rest, sep, 2)| == 2;
        assert rest[j] == sep;
      }
    } else {
      assert s[..i] == s;
    }
    if s == a + [sep] + b && sep !in a && sep !in b {
      assert s[..|a|] == a && s[|a|] == sep;
      FirstIndex(s, sep, |a|);
      assert i == |a| && s[..i] == a && s[i + 1..] == b;
    }
  }

  datatype TokenError = InvalidFormat | BadPayload | BadSignatureText | InvalidSignature | BadClaims

  datatype Parsed = Parsed(claims: TokenClaims) | Rejected(why: TokenError)

  /** `ParseAndVerify`. */
  function ParseAndVerify(lib: Library, token: string, secret: Bytes): Parsed {
    var parts := SplitN(token, '.', 3);
    if |parts| != 2 then Rejected(InvalidFormat)
    else
      var payload := DecodeString(parts[0]);
      if payload.None? then Rejected(BadPayload)
      else
        var signature := DecodeString(parts[1]);
        if signature.None? then Rejected(BadSignatureText)
        else if signature.value != lib.hmac(secret, payload.value) then Rejected(InvalidSignature)
        else
          var claims := lib.unmarshal(payload.value);
          if claims.None? then Rejected(BadClaims) else Parsed(claims.value)
  }

  /** `ValidateToken`. It has no error of its own. */
  function ValidateToken(lib: Library, secret: Bytes, now: int, sessionID: string, token: string): Outcome<bool> {
    match ParseAndVerify(lib, token, secret)
    case Rejected(_) => Ok(false)
    case Parsed(claims) =>
      var t := lib.parse(claims.expiresAt);
      if t.None? || now > t.value then Ok(false)
      else Ok(claims.sessionID == sessionID)
  }

  // ---------- round trip ----------

  /** A token splits into the encodings it was made of. */
  lemma TokenSplits(payload: Bytes, signature: Bytes)
    ensures SplitN(Encode(payload) + "." + Encode(signature), '.', 3) == [Encode(payload), Encode(signature)]
  {
    RoundTrip(payload);
    RoundTrip(signature);
    TwoParts(Encode(payload) + "." + Encode(signature), '.', Encode(payload), Encode(signature));
  }

  /** Token round trip, also under a secret other than the issuer's: a token that was issued parses to
      the claims it was issued for exactly when both secrets sign the payload alike, and is rejected
      for its signature otherwise. */
  lemma {:induction false} IssuedTokenParses(
    lib: Library, login: string, role: string, sessionID: string, expiresAt: Time, issuedAt: Time, secret: Bytes,
    other: Bytes)
    requires Sound(lib) && Representable(expiresAt) && Representable(issuedAt)
    requires ValidUtf8(login) && ValidUtf8(role) && ValidUtf8(sessionID)
    ensures var claims := TokenClaims(login, role, sessionID, lib.format(expiresAt), lib.format(issuedAt));
      var token := CreateToken(lib, login, role, sessionID, expiresAt, issuedAt, secret);
      && token.Some? && lib.marshal(claims).Some?
      && var payload := lib.marshal(claims).value;
         ParseAndVerify(lib, token.value, other) ==
           if lib.hmac(secret, payload) == lib.hmac(other, payload) then Parsed(claims) else Rejected(InvalidSignature)
  {
    hide Encode, DecodeString, SplitN, ValidUtf8, Representable;
    var claims := TokenClaims(login, role, sessionID, lib.format(expiresAt), lib.format(issuedAt));
    var payload := lib.marshal(claims).value;
    TokenSplits(payload, lib.hmac(secret, payload));
    RoundTrip(payload);
    RoundTrip(lib.hmac(secret, payload));
  }

  /** The token carries the claims, signed under the secret: it is two texts around its only dot, the
      second of which decodes to the signature of what the first decodes to, and that holds the claims. */
  ghost predicate SignedClaims(lib: Library, token: string, secret: Bytes, claims: TokenClaims) {
    exists a, b, payload ::
      && token == a + "." + b && '.' !in a && '.' !in b
      && DecodeString(a) == Some(payload) && DecodeString(b) == Some(lib.hmac(secret, payload))
      && lib.unmarshal(payload) == Some(claims)
  }

  /** Only signed payloads are accepted, and all of them. */
  lemma AcceptedMeansSigned(lib: Library, token: string, secret: Bytes, claims: TokenClaims)
    ensures ParseAndVerify(lib, token, secret) == Parsed(claims) <==> SignedClaims(lib, token, secret, claims)
  {
    hide DecodeString, SplitN;
    var parts := SplitN(token, '.', 3);
    if |parts| == 2 {
      assert parts == [parts[0], parts[1]];
      TwoParts(token, '.', parts[0], parts[1]);
    }
    forall a, b | token == a + "." + b && '.' !in a && '.' !in b ensures parts == [a, b] {
      TwoParts(token, '.', a, b);
    }
    if ParseAndVerify(lib, token, secret) == Parsed(claims) {
      assert token == parts[0] + "." + parts[1];
      assert DecodeString(parts[0]) == Some(DecodeString(parts[0]).value);
    }
  }

  /** The token is good for the session at the moment: it carries claims, signed under the secret, that
      name the session and an expiry which the moment is not after. */
  ghost predicate GoodFor(lib: Library, secret: Bytes, now: int, session: string, token: string) {
    exists claims ::
      && SignedClaims(lib, token, secret, claims) && claims.sessionID == session
      && lib.parse(claims.expiresAt).Some? && now <= lib.parse(claims.expiresAt).value
  }

  /** For every token, whoever made it: it is accepted if and only if it is good for the session at the
      moment; any other is turned down, which is not an error. */
  lemma ValidExactlyWhenGood(lib: Library, secret: Bytes, now: int, session: string, token: string)
    ensures ValidateToken(lib, secret, now, session, token) == Ok(GoodFor(lib, secret, now, session, token))
  {
    hide ParseAndVerify, SignedClaims;
    forall claims
      ensures ParseAndVerify(lib, token, secret) == Parsed(claims) <==> SignedClaims(lib, token, secret, claims)
    {
      AcceptedMeansSigned(lib, token, secret, claims);
    }
  }

  /** The time bound: a token that was issued is accepted for a session at a moment if and only if it
      was issued for that session and the moment is not after the expiry, floored to whole seconds. */
  lemma {:induction false} IssuedTokenIsValid(
    lib: Library, login: string, role: string, sessionID: string, expiresAt: Time, issuedAt: Time, secret: Bytes,
    now: int, session: string)
    requires Sound(lib) && Representable(expiresAt) && Representable(issuedAt)
    requires ValidUtf8(login) && ValidUtf8(role) && ValidUtf8(sessionID)
    ensures var token := CreateToken(lib, login, role, sessionID, expiresAt, issuedAt, secret);
      && token.Some?
      && ValidateToken(lib, secret, now, session, token.value)
         == Ok(session == sessionID && now <= FloorToSecond(expiresAt.nanos))
  {
    hide CreateToken, ParseAndVerify, ValidUtf8, Representable;
    IssuedTokenParses(lib, login, role, sessionID, expiresAt, issuedAt, secret, secret);
  }

  // ---------- in a request ----------

  /** The validator as the authorization of a request sees it. */
  function JwtValidator(lib: Library, secret: Bytes, now: int): JwtService {
    (sessionID, token) => ValidateToken(lib, secret, now, sessionID, token)
  }

  /** A request is authenticated if and only if its first session value is not empty and its first
      authorization value, without the white space at its ends, is a token that is good for it now. */
  lemma AuthenticatedExactlyWhenGood(lib: Library, secret: Bytes, now: int, md: Metadata)
    ensures Authenticated(JwtValidator(lib, secret, now), md) <==>
            && HEADER_SESSION_ID in md && md[HEADER_SESSION_ID] != [] && md[HEADER_SESSION_ID][0] != ""
            && HEADER_AUTHORIZATION in md && md[HEADER_AUTHORIZATION] != []
            && var token := TrimSpace(md[HEADER_AUTHORIZATION][0]);
               token != "" && GoodFor(lib, secret, now, md[HEADER_SESSION_ID][0], token)
  {
    hide TrimSpace, GoodFor, ValidateToken, Blank, CutFrom, Leading, Trailing;
    assert ToLower(HEADER_SESSION_ID) == HEADER_SESSION_ID;
    assert ToLower(HEADER_AUTHORIZATION) == HEADER_AUTHORIZATION;
    if GetSessionID(md).Some? && GetAuthToken(md).Some? {
      ValidExactlyWhenGood(lib, secret, now, GetSessionID(md).value, GetAuthToken(md).value);
    }
  }

  lemma EncodingIsVisible(b: Bytes)
    ensures forall i :: 0 <= i < |Encode(b)| ==> ' ' < Encode(b)[i] < 0x80 as char
  {
    hide Encode;
    RoundTrip(b);
    forall i | 0 <= i < |Encode(b)| ensures ' ' < Encode(b)[i] < 0x80 as char {
      assert InAlphabet(Encode(b)[i]);
    }
  }

  lemma NoSpaceInToken(payload: Bytes, signature: Bytes)
    ensures var token := Encode(payload) + "." + Encode(signature);
      token != "" && TrimSpace(token) == token
  {
    hide *;
    var token := Encode(payload) + "." + Encode(signature);
    assert token[|Encode(payload)|] == '.';
    EncodingIsVisible(payload);
    EncodingIsVisible(signature);
    VisibleIsKept(token);
  }

  /** A request that carries an issued token and a session header is authenticated exactly when the
      token was issued for that session, which is not empty, and has not expired. */
  lemma {:induction false} IssuedTokenAuthenticates(
    lib: Library, login: string, role: string, sessionID: string, expiresAt: Time, issuedAt: Time, secret: Bytes,
    now: int, md: Metadata)
    requires Sound(lib) && Representable(expiresAt) && Representable(issuedAt)
    requires ValidUtf8(login) && ValidUtf8(role) && ValidUtf8(sessionID)
    requires HEADER_SESSION_ID in md && md[HEADER_SESSION_ID] != [] && HEADER_AUTHORIZATION in md
    requires CreateToken(lib, login, role, sessionID, expiresAt, issuedAt, secret).Some? ==>
               md[HEADER_AUTHORIZATION] == [CreateToken(lib, login, role, sessionID, expiresAt, issuedAt, secret).value]
    ensures Authenticated(JwtValidator(lib, secret, now), md) <==>
            md[HEADER_SESSION_ID][0] == sessionID != "" && now <= FloorToSecond(expiresAt.nanos)
  {
    hide Encode, TrimSpace, ValidateToken, ValidUtf8, Representable, FloorToSecond;
    var session := md[HEADER_SESSION_ID][0];
    IssuedTokenIsValid(lib, login, role, sessionID, expiresAt, issuedAt, secret, now, session);
    var claims := TokenClaims(login, role, sessionID, lib.format(expiresAt), lib.format(issuedAt));
    var payload := lib.marshal(claims).value;
    NoSpaceInToken(payload, lib.hmac(secret, payload));
    assert ToLower(HEADER_SESSION_ID) == HEADER_SESSION_ID;
    assert ToLower(HEADER_AUTHORIZATION) == HEADER_AUTHORIZATION;
  }
}
