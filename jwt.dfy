/** Decoded token payloads and the token pairs the server issues. */
module Jwt {
  import opened Outcomes
  import opened Numbers

  /** The JSON value a payload holds under a claim name. */
  datatype ClaimValue = Absent | Number(n: int) | Str(s: string)

  /**
   * The claims the server reads from a verified token: the user id under
   * its current name `_id` and its legacy name `id`, and three optional
   * profile fields.
   */
  datatype Claims = Claims(
    underscoreId: ClaimValue,
    id: ClaimValue,
    email: Option<string>,
    username: Option<string>,
    imageUrl: Option<string>)

  /** JavaScript truthiness of a claim value. */
  predicate ClaimTruthy(v: ClaimValue)
  {
    match v
    case Absent => false
    case Number(n) => n != 0
    case Str(s) => s != ""
  }

  /** `Number(v)` of a claim value; `Number(undefined)` is NaN. */
  function ToNumber(v: ClaimValue): Num
  {
    match v
    case Absent => NaN
    case Number(n) => Int(n)
    case Str(s) => StringToNumber(s)
  }

  /**
   * The claims `generateToken` signs for a user: `_id` is the id turned into
   * a string (the random salt claim is never read back and is left out).
   */
  function IssuedClaims(userId: int): Claims
  {
    Claims(Str(IntString(userId)), Absent, None, None, None)
  }

  /** An access token and a refresh token, as `generateToken` returns them. */
  datatype TokenPair = TokenPair(accessToken: string, refreshToken: string)
}
