/** JwtService: issuing and inspecting JSON Web Tokens (RFC 7519) signed with
    HMAC-SHA (RFC 7518, section 3.2).

    Compact serialisation, Base64url, JSON and the MAC itself are foreign code.
    A token is therefore an abstract encoding of its claims: a signed token
    carries its claims and a symbolic signature that depends on exactly the
    signing key and the claims, so it verifies under that key and no other.
    The clock is the parameter `now`, in epoch milliseconds; the `iat` and
    `exp` claims hold whole seconds, as jjwt writes them. */
module Jwt {
  import opened Common

  const AccessType: string := "access"
  const RefreshType: string := "refresh"

  /** The three configuration values the service is constructed with. */
  datatype JwtConfig = JwtConfig(secretKey: string, accessTokenExpiration: int, refreshTokenExpiration: int)

  /** The claims set: the registered claims `sub`, `iat` and `exp` (RFC 7519
      sections 4.1.2, 4.1.6 and 4.1.4) and the private claims `userId` and `type`.
      `iat` and `exp` are NumericDates: whole seconds since the epoch.
      Each may be absent from a token that was not issued by this service. */
  datatype Claims = Claims(
    subject: Option<string>,
    userId: Option<int>,
    tokenType: Option<string>,
    issuedAt: Option<int>,
    expiration: Option<int>)

  /** An HMAC tag, kept symbolic: it is determined by the key and the claims. */
  datatype Signature = Hmac(key: string, signed: Claims)

  datatype Token =
    | Jws(claims: Claims, signature: Signature)  // a signed compact token
    | Unsecured(claims: Claims)                  // a well-formed token that is not signed
    | Unparseable(text: string)                  // text that is not a token at all

  /** The exceptions the parser throws, which extractAllClaims rethrows unchanged:
      ExpiredJwtException, UnsupportedJwtException, MalformedJwtException, and
      Invalid for IllegalArgumentException (blank input) and a bad signature. */
  datatype ParseFailure = Expired | Unsupported | Malformed | Invalid

  /** What a caller of the expiry check can see thrown: a parse failure or a
      NullPointerException from a missing claim. */
  datatype Thrown = ParseError(failure: ParseFailure) | NullPointer

  function Sign(key: string, c: Claims): Signature {
    Hmac(key, c)
  }

  predicate IsWhitespace(ch: char) {
    ch == ' ' || ch == '\t' || ch == '\n' || ch == '\r' || ch == '\U{000B}' || ch == '\U{000C}'
  }

  predicate IsBlank(text: string) {
    forall i :: 0 <= i < |text| ==> IsWhitespace(text[i])
  }

  /** A java.util.Date as a NumericDate: jjwt writes `getTime() / 1000`, so
      the milliseconds are cut off, toward zero. */
  function EpochSeconds(ms: int): (s: int)
    ensures ms >= 0 ==> s * 1000 <= ms < s * 1000 + 1000
    ensures ms < 0 ==> s * 1000 - 1000 < ms <= s * 1000
  {
    JavaDiv(ms, 1000)
  }

  /** The instant, in epoch milliseconds, at which a token with these claims
      stops decoding: the `exp` second read back as a Date. */
  function ExpiryMillis(c: Claims): (d: Option<int>)
    ensures d.Some? <==> c.expiration.Some?
    ensures d.Some? ==> d.value % 1000 == 0 && d.value / 1000 == c.expiration.value
  {
    if c.expiration.Some? then Some(c.expiration.value * 1000) else None
  }

  /** createToken: the private claims, the subject, `iat` at now and `exp` at
      now + expiration, both cut to whole seconds, signed with the configured
      key. */
  function CreateToken(cfg: JwtConfig, userId: Option<int>, tokenType: string, subject: string,
                       expiration: int, now: int): (t: Token)
    ensures t.Jws? && t.signature == Sign(cfg.secretKey, t.claims)
    ensures t.claims.subject == Some(subject) && t.claims.userId == userId
    ensures t.claims.tokenType == Some(tokenType)
    ensures t.claims.issuedAt == Some(EpochSeconds(now)) && t.claims.expiration == Some(EpochSeconds(now + expiration))
  {
    var c := Claims(Some(subject), userId, Some(tokenType), Some(EpochSeconds(now)), Some(EpochSeconds(now + expiration)));
    Jws(c, Sign(cfg.secretKey, c))
  }

  /** Two tokens issued with the same arguments are identical when their
      `iat` and `exp` fall in the same seconds, and differ otherwise. */
  lemma CreateTokenDeterministic(cfg: JwtConfig, userId: Option<int>, tokenType: string, subject: string,
                                 expiration: int, now1: int, now2: int)
    ensures CreateToken(cfg, userId, tokenType, subject, expiration, now1) ==
            CreateToken(cfg, userId, tokenType, subject, expiration, now2) <==>
      EpochSeconds(now1) == EpochSeconds(now2) && EpochSeconds(now1 + expiration) == EpochSeconds(now2 + expiration)
  {
  }

  /** extractAllClaims: verify the signature with the configured key, then the
      expiry (a token is expired once `now` is past the `exp` second), else
      return the claims. */
  function ExtractAllClaims(cfg: JwtConfig, t: Token, now: int): (r: Result<Claims, ParseFailure>)
    ensures r.Success? <==>
      t.Jws? && t.signature == Sign(cfg.secretKey, t.claims) &&
      (t.claims.expiration.Some? ==> now <= t.claims.expiration.value * 1000)
    ensures r.Success? ==> r.value == t.claims
    ensures r == Failure(Expired) <==>
      t.Jws? && t.signature == Sign(cfg.secretKey, t.claims) &&
      t.claims.expiration.Some? && now > t.claims.expiration.value * 1000
    ensures r == Failure(Unsupported) <==> t.Unsecured?
    ensures r == Failure(Malformed) <==> t.Unparseable? && !IsBlank(t.text)
  {
    match t
    case Unparseable(text) => Failure(if IsBlank(text) then Invalid else Malformed)
    case Unsecured(_) => Failure(Unsupported)
    case Jws(c, sig) =>
      if sig != Sign(cfg.secretKey, c) then Failure(Invalid)
      else if c.expiration.Some? && now > c.expiration.value * 1000 then Failure(Expired)
      else Success(c)
  }

  /** extractClaim: one projection of the decoded claims, failing exactly as
      extractAllClaims fails. */
  function ExtractClaim<T>(cfg: JwtConfig, t: Token, now: int, resolver: Claims -> T): (r: Result<T, ParseFailure>)
    ensures r.Failure? <==> ExtractAllClaims(cfg, t, now).Failure?
    ensures r.Failure? ==> r.error == ExtractAllClaims(cfg, t, now).error
    ensures r.Success? ==> r.value == resolver(ExtractAllClaims(cfg, t, now).value)
  {
    match ExtractAllClaims(cfg, t, now)
    case Failure(e) => Failure(e)
    case Success(c) => Success(resolver(c))
  }

  /** extractEmail: the subject of a token that decodes. */
  function ExtractEmail(cfg: JwtConfig, t: Token, now: int): (r: Result<Option<string>, ParseFailure>)
    ensures r.Failure? <==> ExtractAllClaims(cfg, t, now).Failure?
    ensures r.Failure? ==> r.error == ExtractAllClaims(cfg, t, now).error
    ensures r.Success? ==> t.Jws? && r.value == t.claims.subject
  {
    ExtractClaim(cfg, t, now, (c: Claims) => c.subject)
  }

  /** extractUserId: the `userId` claim of a token that decodes. */
  function ExtractUserId(cfg: JwtConfig, t: Token, now: int): (r: Result<Option<int>, ParseFailure>)
    ensures r.Failure? <==> ExtractAllClaims(cfg, t, now).Failure?
    ensures r.Failure? ==> r.error == ExtractAllClaims(cfg, t, now).error
    ensures r.Success? ==> t.Jws? && r.value == t.claims.userId
  {
    ExtractClaim(cfg, t, now, (c: Claims) => c.userId)
  }

  /** extractTokenType: the `type` claim of a token that decodes. */
  function ExtractTokenType(cfg: JwtConfig, t: Token, now: int): (r: Result<Option<string>, ParseFailure>)
    ensures r.Failure? <==> ExtractAllClaims(cfg, t, now).Failure?
    ensures r.Failure? ==> r.error == ExtractAllClaims(cfg, t, now).error
    ensures r.Success? ==> t.Jws? && r.value == t.claims.tokenType
  {
    ExtractClaim(cfg, t, now, (c: Claims) => c.tokenType)
  }

  /** extractExpiration: the `exp` of a token that decodes, as a Date in
      milliseconds; it is never before now, since a later one fails to decode. */
  function ExtractExpiration(cfg: JwtConfig, t: Token, now: int): (r: Result<Option<int>, ParseFailure>)
    ensures r.Failure? <==> ExtractAllClaims(cfg, t, now).Failure?
    ensures r.Failure? ==> r.error == ExtractAllClaims(cfg, t, now).error
    ensures r.Success? ==> t.Jws? && r.value == ExpiryMillis(t.claims)
    ensures r.Success? && r.value.Some? ==> now <= r.value.value
  {
    ExtractClaim(cfg, t, now, (c: Claims) => ExpiryMillis(c))
  }

  /** generateAccessToken: an "access" token that decodes until the
      access-token lifetime, cut to the whole second, has passed, and then
      decodes to Expired. */
  function GenerateAccessToken(cfg: JwtConfig, userId: Option<int>, email: string, now: int): (t: Token)
    ensures t.Jws? && t.claims.tokenType == Some(AccessType)
    ensures t.claims.issuedAt == Some(EpochSeconds(now)) && t.claims.expiration == Some(EpochSeconds(now + cfg.accessTokenExpiration))
    ensures forall at :: ExtractAllClaims(cfg, t, at).Success? <==> at <= EpochSeconds(now + cfg.accessTokenExpiration) * 1000
    ensures forall at :: at > EpochSeconds(now + cfg.accessTokenExpiration) * 1000 ==> ExtractAllClaims(cfg, t, at) == Failure(Expired)
  {
    CreateToken(cfg, userId, AccessType, email, cfg.accessTokenExpiration, now)
  }

  /** generateRefreshToken: the same for a "refresh" token and the
      refresh-token lifetime. */
  function GenerateRefreshToken(cfg: JwtConfig, userId: Option<int>, email: string, now: int): (t: Token)
    ensures t.Jws? && t.claims.tokenType == Some(RefreshType)
    ensures t.claims.issuedAt == Some(EpochSeconds(now)) && t.claims.expiration == Some(EpochSeconds(now + cfg.refreshTokenExpiration))
    ensures forall at :: ExtractAllClaims(cfg, t, at).Success? <==> at <= EpochSeconds(now + cfg.refreshTokenExpiration) * 1000
    ensures forall at :: at > EpochSeconds(now + cfg.refreshTokenExpiration) * 1000 ==> ExtractAllClaims(cfg, t, at) == Failure(Expired)
  {
    CreateToken(cfg, userId, RefreshType, email, cfg.refreshTokenExpiration, now)
  }

  /** isTokenExpired: true when the parser reports the token expired, otherwise
      whether `exp` lies before now. Any other parse failure propagates, and a
      token without `exp` makes the comparison throw. Because the parser itself
      rejects a token past its `exp`, a token that parses is never reported
      expired. */
  function IsTokenExpired(cfg: JwtConfig, t: Token, now: int): (r: Result<bool, Thrown>)
    ensures r == Success(true) <==> ExtractAllClaims(cfg, t, now) == Failure(Expired)
    ensures r == Success(false) <==>
      ExtractAllClaims(cfg, t, now).Success? && ExtractAllClaims(cfg, t, now).value.expiration.Some?
    ensures r == Failure(NullPointer) <==>
      ExtractAllClaims(cfg, t, now).Success? && ExtractAllClaims(cfg, t, now).value.expiration.None?
    ensures ExtractAllClaims(cfg, t, now).Failure? && ExtractAllClaims(cfg, t, now).error != Expired ==>
      r == Failure(ParseError(ExtractAllClaims(cfg, t, now).error))
  {
    match ExtractExpiration(cfg, t, now)
    case Failure(Expired) => Success(true)
    case Failure(e) => Failure(ParseError(e))
    case Success(None) => Failure(NullPointer)
    case Success(Some(exp)) => Success(exp < now)
  }

  /** validateToken: the token is not expired and its subject is `email`;
      every exception on the way yields false. */
  function ValidateToken(cfg: JwtConfig, t: Token, email: string, now: int): (ok: bool)
    ensures ok <==>
      ExtractAllClaims(cfg, t, now).Success? &&
      ExtractAllClaims(cfg, t, now).value.subject == Some(email) &&
      ExtractAllClaims(cfg, t, now).value.expiration.Some?
  {
    match ExtractEmail(cfg, t, now)
    case Failure(_) => false
    case Success(subject) =>
      match IsTokenExpired(cfg, t, now)
      case Failure(_) => false
      case Success(expired) =>
        if expired then false
        else subject.Some? && subject.value == email
  }

  /** isAccessToken: the `type` claim is exactly "access"; a decode failure or
      a missing claim yields false instead of an exception. */
  function IsAccessToken(cfg: JwtConfig, t: Token, now: int): (ok: bool)
    ensures ok <==>
      ExtractAllClaims(cfg, t, now).Success? &&
      ExtractAllClaims(cfg, t, now).value.tokenType == Some(AccessType)
  {
    match ExtractTokenType(cfg, t, now)
    case Success(Some(ty)) => ty == AccessType
    case _ => false
  }

  /** isRefreshToken: the `type` claim is exactly "refresh"; never true of a
      token isAccessToken accepts. */
  function IsRefreshToken(cfg: JwtConfig, t: Token, now: int): (ok: bool)
    ensures ok <==>
      ExtractAllClaims(cfg, t, now).Success? &&
      ExtractAllClaims(cfg, t, now).value.tokenType == Some(RefreshType)
    ensures ok ==> !IsAccessToken(cfg, t, now)
  {
    match ExtractTokenType(cfg, t, now)
    case Success(Some(ty)) => ty == RefreshType
    case _ => false
  }

  /** A token issued under one key is rejected, as Invalid, under any other. */
  lemma ForeignKeyRejected(cfg: JwtConfig, other: JwtConfig, userId: Option<int>, email: string, issued: int, now: int)
    requires other.secretKey != cfg.secretKey
    ensures ExtractAllClaims(other, GenerateAccessToken(cfg, userId, email, issued), now) == Failure(Invalid)
    ensures ExtractAllClaims(other, GenerateRefreshToken(cfg, userId, email, issued), now) == Failure(Invalid)
  {
  }

  /** The two kinds an issued token can have are told apart by the type checks
      for as long as the token is alive. */
  lemma IssuedKindsDiscriminated(cfg: JwtConfig, userId: Option<int>, email: string, issued: int, now: int)
    requires now <= EpochSeconds(issued + cfg.accessTokenExpiration) * 1000
    requires now <= EpochSeconds(issued + cfg.refreshTokenExpiration) * 1000
    ensures IsAccessToken(cfg, GenerateAccessToken(cfg, userId, email, issued), now)
    ensures !IsRefreshToken(cfg, GenerateAccessToken(cfg, userId, email, issued), now)
    ensures IsRefreshToken(cfg, GenerateRefreshToken(cfg, userId, email, issued), now)
    ensures !IsAccessToken(cfg, GenerateRefreshToken(cfg, userId, email, issued), now)
    ensures ValidateToken(cfg, GenerateAccessToken(cfg, userId, email, issued), email, now)
  {
  }

  /** Round trip: until it expires, an issued token yields back the email, the
      user id and the kind it was issued with. */
  lemma IssuedTokenRoundTrip(cfg: JwtConfig, userId: Option<int>, email: string, issued: int, now: int)
    ensures now <= EpochSeconds(issued + cfg.accessTokenExpiration) * 1000 ==>
      var t := GenerateAccessToken(cfg, userId, email, issued);
      ExtractEmail(cfg, t, now) == Success(Some(email)) &&
      ExtractUserId(cfg, t, now) == Success(userId) &&
      ExtractTokenType(cfg, t, now) == Success(Some(AccessType))
    ensures now <= EpochSeconds(issued + cfg.refreshTokenExpiration) * 1000 ==>
      var t := GenerateRefreshToken(cfg, userId, email, issued);
      ExtractEmail(cfg, t, now) == Success(Some(email)) &&
      ExtractUserId(cfg, t, now) == Success(userId) &&
      ExtractTokenType(cfg, t, now) == Success(Some(RefreshType))
  {
  }
}
