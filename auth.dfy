/** Bearer-token authentication of src/middleware/auth.js. The token codec
    (`jwt.verify`) is a parameter: it either yields the decoded claims or
    throws an error known by its `name`. */
module Auth {
  import opened Common

  const BearerPrefix := "Bearer "
  const NoTokenProvided := "No token provided"
  const InvalidTokenFormat := "Invalid token format. Use: Bearer <token>"
  const InvalidToken := "Invalid token"
  const TokenExpired := "Token expired"
  const CouldNotAuthenticate := "Could not authenticate token"

  /** What a session token carries: the claims the service signs. */
  datatype Payload = Payload(userId: int, email: string, role: Role)

  /** A decoded token: the signed payload plus the codec's timestamps. */
  datatype Claims = Claims(userId: int, email: string, role: Role, issuedAt: int, expiresAt: int)

  /** The outcome of `jwt.verify(token, secret)`. */
  datatype VerifyOutcome = Verified(claims: Claims) | Thrown(name: string)

  function PayloadOf(c: Claims): Payload {
    Payload(c.userId, c.email, c.role)
  }

  /** The identity attached to `req.user`: exactly `{userId, email, role}` of the claims. */
  function IdentityOf(c: Claims): Identity {
    Identity(c.userId, c.email, c.role)
  }

  /** `!authHeader`: no header, or an empty one. */
  predicate HeaderFalsy(header: Option<string>) {
    header.None? || header.value == ""
  }

  /** `authHeader.startsWith('Bearer ')`, case-sensitive. */
  predicate HasBearerPrefix(h: string) {
    |h| >= |BearerPrefix| && h[..|BearerPrefix|] == BearerPrefix
  }

  /** The header parse: `authHeader.substring(7)` once the header is present
      and carries the prefix. */
  function ExtractToken(header: Option<string>): (r: Result<string>)
    ensures HeaderFalsy(header) ==> r == Err(Unauthenticated(NoTokenProvided))
    ensures !HeaderFalsy(header) && !HasBearerPrefix(header.value) ==> r == Err(Unauthenticated(InvalidTokenFormat))
    ensures r.Ok? <==> header.Some? && HasBearerPrefix(header.value)
    ensures r.Ok? ==> header == Some(BearerPrefix + r.value)
  {
    if HeaderFalsy(header) then Err(Unauthenticated(NoTokenProvided))
    else if !HasBearerPrefix(header.value) then Err(Unauthenticated(InvalidTokenFormat))
    else
      var token := header.value[|BearerPrefix|..];
      assert header.value == BearerPrefix + token;
      Ok(token)
  }

  /** The header built from a token parses back to that token. */
  lemma {:induction false} BearerRoundTrip(token: string)
    ensures ExtractToken(Some(BearerPrefix + token)) == Ok(token)
  {
    var h := BearerPrefix + token;
    assert h[..|BearerPrefix|] == BearerPrefix;
    assert h[|BearerPrefix|..] == token;
  }

  /** The catch block of `authenticate`: the error a failed verify maps to. */
  function VerifyFailure(name: string): (e: Error)
    ensures name == "JsonWebTokenError" ==> e == Unauthenticated(InvalidToken)
    ensures name == "TokenExpiredError" ==> e == Unauthenticated(TokenExpired)
    ensures e.Status() == 401 <==> name == "JsonWebTokenError" || name == "TokenExpiredError"
    ensures e.Status() != 401 ==> e == ServerError(CouldNotAuthenticate)
  {
    if name == "JsonWebTokenError" then Unauthenticated(InvalidToken)
    else if name == "TokenExpiredError" then Unauthenticated(TokenExpired)
    else ServerError(CouldNotAuthenticate)
  }

  /** `authenticate`: the request proceeds with an identity exactly when the
      header is `"Bearer " + token` and the codec accepts `token`. */
  function Authenticate(header: Option<string>, verify: string -> VerifyOutcome): (r: Result<Identity>)
    ensures HeaderFalsy(header) ==> r == Err(Unauthenticated(NoTokenProvided))
    ensures !HeaderFalsy(header) && !HasBearerPrefix(header.value) ==> r == Err(Unauthenticated(InvalidTokenFormat))
    ensures r.Ok? <==> header.Some? && HasBearerPrefix(header.value) && verify(header.value[|BearerPrefix|..]).Verified?
    ensures r.Ok? ==> r.value == IdentityOf(verify(header.value[|BearerPrefix|..]).claims)
    ensures r.Err? ==> r.error.Unauthenticated? || r.error == ServerError(CouldNotAuthenticate)
  {
    match ExtractToken(header)
    case Err(e) => Err(e)
    case Ok(token) =>
      match verify(token)
      case Verified(claims) => Ok(IdentityOf(claims))
      case Thrown(name) => Err(VerifyFailure(name))
  }

  /** For a well-formed header only the codec's verdict on the token matters. */
  lemma {:induction false} AuthenticateBearer(token: string, verify: string -> VerifyOutcome)
    ensures Authenticate(Some(BearerPrefix + token), verify) ==
      match verify(token)
      case Verified(c) => Ok(IdentityOf(c))
      case Thrown(name) => Err(VerifyFailure(name))
  {
    BearerRoundTrip(token);
  }

  /** The prefix test is case-sensitive: a lower-case scheme is a format error. */
  lemma {:induction false} LowerCaseSchemeRejected(token: string, verify: string -> VerifyOutcome)
    ensures Authenticate(Some("bearer " + token), verify) == Err(Unauthenticated(InvalidTokenFormat))
  {
    var h := "bearer " + token;
    assert h[0] == 'b' != BearerPrefix[0];
    assert !HasBearerPrefix(h);
  }

  /** `optionalAuthenticate`: never rejects; a missing or malformed header or
      any verify failure leaves `req.user` null, and otherwise the identity is
      the one `authenticate` would attach. */
  function OptionalAuthenticate(header: Option<string>, verify: string -> VerifyOutcome): (r: Option<Identity>)
    ensures r.Some? <==> Authenticate(header, verify).Ok?
    ensures r.Some? ==> r.value == Authenticate(header, verify).value
    ensures HeaderFalsy(header) ==> r.None?
  {
    if header.None? || header.value == "" || !HasBearerPrefix(header.value) then None
    else
      match verify(header.value[7..])
      case Verified(claims) => Some(Identity(claims.userId, claims.email, claims.role))
      case Thrown(_) => None
  }
}
