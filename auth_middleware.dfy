/**
 * The bearer-token check in front of every protected route. It reads only
 * the `Authorization` header and the payload that token verification
 * yields; it never consults the database.
 */
module AuthMiddleware {
  import opened Outcomes
  import opened Text
  import opened Numbers
  import opened Jwt

  /** The identity the middleware attaches to the request as `req.user`. */
  datatype AuthUser = AuthUser(id: int, email: Option<string>, username: Option<string>, imageUrl: Option<string>)

  /** A 401 reply (and `next` is not called), or `next()` called once with `req.user` set. */
  datatype Verdict = Unauthorized(message: string) | Next(user: AuthUser)

  const NoTokenMessage := "Unauthorized: No token provided"
  const InvalidTokenMessage := "Unauthorized: Invalid token"
  const ExpiredMessage := "Unauthorized: Token expired or invalid"
  const BadIdMessage := "Unauthorized: Invalid user id in token"

  /** `authorization.split(" ")[1]`, when that segment exists and is not empty. */
  function BearerToken(authorization: string): (token: Option<string>)
    ensures token.Some? <==> |Split(authorization, ' ')| >= 2 && Split(authorization, ' ')[1] != ""
    ensures token.Some? ==> token.value == Split(authorization, ' ')[1]
    ensures token.Some? ==> token.value != "" && ' ' !in token.value
  {
    var parts := Split(authorization, ' ');
    if |parts| >= 2 && parts[1] != "" then Some(parts[1]) else None
  }

  /**
   * The user id a payload names: `Number(_id)` when `_id` is truthy, else
   * `Number(id)` when `id` is truthy; None when neither is, or the number
   * is NaN or 0.
   */
  function ClaimedId(c: Claims): (id: Option<int>)
    ensures id.Some? ==> id.value != 0
    ensures ClaimTruthy(c.underscoreId) ==>
      (id.Some? <==> Truthy(ToNumber(c.underscoreId))) && (id.Some? ==> ToNumber(c.underscoreId) == Int(id.value))
    ensures !ClaimTruthy(c.underscoreId) && ClaimTruthy(c.id) ==>
      (id.Some? <==> Truthy(ToNumber(c.id))) && (id.Some? ==> ToNumber(c.id) == Int(id.value))
    ensures !ClaimTruthy(c.underscoreId) && !ClaimTruthy(c.id) ==> id.None?
  {
    var n := if ClaimTruthy(c.underscoreId) then ToNumber(c.underscoreId)
             else if ClaimTruthy(c.id) then ToNumber(c.id)
             else NaN;
    if Truthy(n) then Some(n.value) else None
  }

  /**
   * The middleware's decision for a request carrying `authorization` (None
   * when the header is missing); `verify` is the signature and expiry check,
   * giving the decoded payload or None when verification fails.
   */
  function Authenticate(authorization: Option<string>, verify: string -> Option<Claims>): (v: Verdict)
    ensures !Present(authorization) ==> v == Unauthorized(NoTokenMessage)
    ensures v.Next? ==>
      && Present(authorization)
      && BearerToken(authorization.value).Some?
      && verify(BearerToken(authorization.value).value).Some?
      && var c := verify(BearerToken(authorization.value).value).value;
         ClaimedId(c) == Some(v.user.id) && v.user == AuthUser(v.user.id, c.email, c.username, c.imageUrl)
    ensures v.Next? ==> v.user.id != 0
    ensures Present(authorization) && BearerToken(authorization.value).None? ==>
      v == Unauthorized(InvalidTokenMessage)
    ensures Present(authorization) && BearerToken(authorization.value).Some? ==>
      var token := BearerToken(authorization.value).value;
      && (verify(token).None? ==> v == Unauthorized(ExpiredMessage))
      && (verify(token).Some? && ClaimedId(verify(token).value).None? ==> v == Unauthorized(BadIdMessage))
      && (verify(token).Some? && ClaimedId(verify(token).value).Some? ==>
            var c := verify(token).value;
            v == Next(AuthUser(ClaimedId(c).value, c.email, c.username, c.imageUrl)))
  {
    if !Present(authorization) then Unauthorized(NoTokenMessage)
    else
      match BearerToken(authorization.value)
      case None => Unauthorized(InvalidTokenMessage)
      case Some(token) =>
        match verify(token)
        case None => Unauthorized(ExpiredMessage)
        case Some(c) =>
          match ClaimedId(c)
          case None => Unauthorized(BadIdMessage)
          case Some(id) => Next(AuthUser(id, c.email, c.username, c.imageUrl))
  }

  /** Any scheme word followed by one space and the token yields that token; the word is not checked. */
  lemma {:induction false} TokenIsSecondSegment(scheme: string, token: string)
    requires ' ' !in scheme && ' ' !in token && token != ""
    ensures BearerToken(scheme + " " + token) == Some(token)
  {
    var parts := [scheme, token];
    assert Join(parts[1..], ' ') == token;
    assert Join(parts, ' ') == scheme + " " + token;
    SplitJoin(parts, ' ');
  }

  /** A header with no space in it carries no token. */
  lemma HeaderWithoutSpaceHasNoToken(authorization: string)
    requires ' ' !in authorization
    ensures BearerToken(authorization) == None
  {
    SplitJoin([authorization], ' ');
  }

  /** When `_id` is truthy the legacy `id` claim is never consulted, even if `_id` is unusable. */
  lemma UnderscoreIdShadowsLegacyId(c: Claims)
    requires ClaimTruthy(c.underscoreId)
    ensures ClaimedId(c) == ClaimedId(c.(id := Absent))
  {
  }

  /**
   * A token signed by `generateToken` for a user, sent as `Bearer <token>`,
   * passes the middleware with that user's id.
   */
  lemma IssuedTokenAuthenticates(userId: int, token: string, verify: string -> Option<Claims>)
    requires userId != 0
    requires token != "" && ' ' !in token
    requires verify(token) == Some(IssuedClaims(userId))
    ensures Authenticate(Some("Bearer " + token), verify) == Next(AuthUser(userId, None, None, None))
  {
    var header := "Bearer " + token;
    TokenIsSecondSegment("Bearer", token);
    assert BearerToken(header) == Some(token);
    var c := IssuedClaims(userId);
    IssuedClaimsName(userId);
    assert ClaimedId(c) == Some(userId);
  }

  /** The id `generateToken` signs is the id the middleware reads back. */
  lemma IssuedClaimsName(userId: int)
    requires userId != 0
    ensures ClaimedId(IssuedClaims(userId)) == Some(userId)
  {
    var c := IssuedClaims(userId);
    NumberOfIntString(userId);
    assert ClaimTruthy(c.underscoreId) by {
      if userId < 0 { assert |IntString(userId)| > 1; }
      else { assert |DecimalString(userId)| >= 1; }
    }
    assert ToNumber(c.underscoreId) == Int(userId);
  }
}
