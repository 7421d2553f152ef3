/**
 * The auth package as the handlers use it: reading the bearer token out of
 * the request headers, validating an access token under the server's
 * secret, minting access tokens, and hashing and checking passwords.
 * JWT signing and bcrypt are not modelled: what the handlers rely on is
 * carried as uninterpreted maps and functions.
 */
module Crypto {
  import opened Wrappers

  type UserId = string
  type Token = string
  /** Seconds; RFC 3339 formatting of timestamps is not modelled. */
  type Time = int
  type Headers = map<string, string>

  /**
   * GetBearerToken and ValidateJWT (under the configured JWT secret) as
   * partial maps: headers without a well-formed `Bearer` header are not in
   * `bearer`, and tokens that do not validate are not in `subjects`.
   */
  datatype Auth = Auth(bearer: map<Headers, Token>, subjects: map<Token, UserId>)

  function GetBearerToken(auth: Auth, headers: Headers): Option<Token>
  {
    if headers in auth.bearer then Some(auth.bearer[headers]) else None
  }

  function ValidateJWT(auth: Auth, token: Token): Option<UserId>
  {
    if token in auth.subjects then Some(auth.subjects[token]) else None
  }

  /** The user a request authenticates as: its bearer token, validated. */
  function Caller(auth: Auth, headers: Headers): Option<UserId>
  {
    match GetBearerToken(auth, headers)
    case None => None
    case Some(token) => ValidateJWT(auth, token)
  }

  /** Both login and refresh mint access tokens valid for 24 hours. */
  const AccessTokenLifetime: int := 24 * 60 * 60
  /** Refresh-token records expire 720 hours after login. */
  const RefreshTokenLifetime: int := 720 * 60 * 60

  /** The claims of a minted access token (the signature is not modelled). */
  datatype AccessToken = AccessToken(subject: UserId, issuedAt: Time, expiresAt: Time)

  function MakeJWT(user: UserId, now: Time, lifetime: int): AccessToken
  {
    AccessToken(user, now, now + lifetime)
  }

  /** bcrypt's random salt, supplied by the caller. */
  type Salt = nat

  /**
   * HashPassword (which may fail) and CheckPasswordHash, uninterpreted.
   * `check(hash, password)` is true when CheckPasswordHash returns no error.
   */
  datatype Hasher = Hasher(hash: (string, Salt) -> Option<string>, check: (string, string) -> bool)

  /** The one property of bcrypt the handlers rely on: a hash checks against its password. */
  ghost predicate Sound(hasher: Hasher)
  {
    forall password, salt :: hasher.hash(password, salt).Some? ==>
      hasher.check(hasher.hash(password, salt).value, password)
  }
}
