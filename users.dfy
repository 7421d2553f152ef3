/**
 * The user handlers: sign-up, login, access-token refresh, refresh-token
 * revocation and password change. Each runs its checks in order and ends in
 * at most one write; refresh writes nothing.
 */
module Users {
  import opened Wrappers
  import opened Crypto
  import opened Store
  import opened Http

  datatype SignupForm = SignupForm(name: string, email: string, password: string)
  datatype LoginForm = LoginForm(email: string, password: string)
  datatype PasswordForm = PasswordForm(currentPassword: string, newPassword: string)

  /** Login's one answer for an unknown email and for a wrong password alike. */
  const InvalidCredentials: Response := Response(StatusUnauthorized, Error("Invalid email or password"))

  /** `expires_in` as login reports it: 720 hours, although the access token lives 24. */
  const LoginExpiresIn: int := 720 * 60 * 60
  /** `expires_in` as refresh reports it: 24 hours. */
  const RefreshExpiresIn: int := 24 * 60 * 60

  /**
   * The credential check of login: the user with that email, if there is
   * one and the password checks against the stored hash.
   */
  function LoginUser(hasher: Hasher, db: Db, email: string, password: string): (r: Option<User>)
    requires db.Valid()
    ensures r.Some? ==>
      && r.value.id in db.users && db.users[r.value.id] == r.value
      && r.value.email == email && hasher.check(r.value.hashedPw, password)
    ensures r.None? ==>
      (forall id :: id in db.users ==> db.users[id].email != email)
      || !hasher.check(db.users[db.emails[email]].hashedPw, password)
  {
    match UserByEmail(db, email)
    case None => None
    case Some(user) => if hasher.check(user.hashedPw, password) then Some(user) else None
  }

  /**
   * handlerUsersCreate: stores the hash of the password, never the
   * password; a hashing failure or a taken email creates nothing.
   * `userId` is the freshly generated id, `salt` bcrypt's randomness.
   */
  method UsersCreate(hasher: Hasher, db: Queries, form: Option<SignupForm>, salt: Salt, now: Time,
                     userId: UserId) returns (resp: Response)
    requires db.Valid() && userId !in db.users
    modifies db
    ensures db.Valid()
    ensures
      if form.None? then
        resp == DecodeFailure && db.State() == old(db.State())
      else if hasher.hash(form.value.password, salt).None? then
        && resp == Response(StatusInternalServerError, Error("Couldn't hash password"))
        && db.State() == old(db.State())
      else if form.value.email in old(db.emails) then
        && resp == Response(StatusInternalServerError, Error("Couldn't create user"))
        && db.State() == old(db.State())
      else
        && resp == Response(StatusCreated, EmptyObject)
        && db.State() == old(db.State()).WithUser(
             User(userId, form.value.email, hasher.hash(form.value.password, salt).value, now, now))
  {
    if form.None? {
      return DecodeFailure;
    }
    var params := form.value;
    var hashedPassword := hasher.hash(params.password, salt);
    if hashedPassword.None? {
      return Response(StatusInternalServerError, Error("Couldn't hash password"));
    }
    var created := db.CreateUser(User(userId, params.email, hashedPassword.value, now, now));
    if !created {
      return Response(StatusInternalServerError, Error("Couldn't create user"));
    }
    resp := Response(StatusCreated, EmptyObject);
  }

  /**
   * handlerUsersLogin: an unknown email and a wrong password get the same
   * 401 and write nothing; a good login adds exactly one refresh-token
   * record, bound to the user and expiring 720 hours from now, whose token
   * is the one returned, beside a 24-hour access token.
   * `refreshToken` is the freshly generated token.
   */
  method UsersLogin(hasher: Hasher, db: Queries, form: Option<LoginForm>, now: Time, refreshToken: Token)
    returns (resp: Response)
    requires db.Valid() && refreshToken !in db.refreshTokens
    modifies db
    ensures db.Valid()
    ensures
      if form.None? then
        resp == DecodeFailure && db.State() == old(db.State())
      else match LoginUser(hasher, old(db.State()), form.value.email, form.value.password)
        case None =>
          resp == InvalidCredentials && db.State() == old(db.State())
        case Some(user) =>
          && resp == Response(StatusOK, Session(user.id, user.email, user.createdAt, user.updatedAt,
                                                MakeJWT(user.id, now, AccessTokenLifetime),
                                                refreshToken, LoginExpiresIn))
          && db.State() == old(db.State()).WithRefreshToken(
               RefreshToken(refreshToken, user.id, now, now, now + RefreshTokenLifetime, None))
  {
    if form.None? {
      return DecodeFailure;
    }
    var params := form.value;
    var user := UserByEmail(db.State(), params.email);
    if user.None? {
      return InvalidCredentials;
    }
    if !hasher.check(user.value.hashedPw, params.password) {
      return InvalidCredentials;
    }
    var token := MakeJWT(user.value.id, now, AccessTokenLifetime);
    var record := RefreshToken(refreshToken, user.value.id, now, now, now + RefreshTokenLifetime, None);
    db.CreateRefreshToken(record);
    resp := Response(StatusOK, Session(user.value.id, user.value.email, user.value.createdAt,
                                       user.value.updatedAt, token, record.token, LoginExpiresIn));
  }

  /**
   * handlerRefreshJWT: a new 24-hour access token for the user a stored
   * refresh token is bound to. It writes nothing: the refresh token is not
   * rotated.
   */
  function RefreshJWT(auth: Auth, sql: Sql, db: Db, headers: Headers, now: Time): (resp: Response)
    requires db.Valid()
    ensures resp.status == StatusOK || resp.status == StatusUnauthorized
    ensures GetBearerToken(auth, headers).None? ==>
      resp == Response(StatusUnauthorized, Error("Invalid token"))
    ensures GetBearerToken(auth, headers).Some?
            && UserFromRefreshToken(db, sql, GetBearerToken(auth, headers).value, now).None? ==>
      resp == Response(StatusUnauthorized, Error("Invalid refresh token"))
    ensures resp.status == StatusOK <==>
      GetBearerToken(auth, headers).Some?
      && UserFromRefreshToken(db, sql, GetBearerToken(auth, headers).value, now).Some?
    ensures resp.status == StatusOK ==>
      var token := GetBearerToken(auth, headers).value;
      && token in db.refreshTokens
      && resp.body == Renewal(AccessToken(db.refreshTokens[token].userId, now, now + AccessTokenLifetime),
                              RefreshExpiresIn)
  {
    match GetBearerToken(auth, headers)
    case None => Response(StatusUnauthorized, Error("Invalid token"))
    case Some(token) =>
      match UserFromRefreshToken(db, sql, token, now)
      case None => Response(StatusUnauthorized, Error("Invalid refresh token"))
      case Some(user) =>
        Response(StatusOK, Renewal(MakeJWT(user.id, now, AccessTokenLifetime), RefreshExpiresIn))
  }

  /**
   * handlerRevokeRefreshToken: with a bearer token, marks that token's
   * record revoked (RevokedAt and UpdatedAt only). The handler does not
   * check that the record exists: revoking an unknown token is a 200 that
   * changes nothing.
   */
  method RevokeRefreshToken(auth: Auth, db: Queries, headers: Headers, now: Time) returns (resp: Response)
    requires db.Valid()
    modifies db
    ensures db.Valid()
    ensures
      if GetBearerToken(auth, headers).None? then
        resp == Response(StatusUnauthorized, Error("Invalid token")) && db.State() == old(db.State())
      else
        && resp == Response(StatusOK, Message("Refresh token revoked successfully"))
        && db.State() == old(db.State()).WithRevoked(GetBearerToken(auth, headers).value, now)
  {
    var tokenString := GetBearerToken(auth, headers);
    if tokenString.None? {
      return Response(StatusUnauthorized, Error("Invalid token"));
    }
    db.RevokeRefreshToken(tokenString.value, now);
    resp := Response(StatusOK, Message("Refresh token revoked successfully"));
  }

  /**
   * handlerUpdatePassword: the body is decoded first (a 500 even before
   * authentication); then the bearer token, its validation and the
   * current password are checked; only then is the stored hash replaced.
   * Refresh-token records are left as they are.
   */
  method UpdatePassword(auth: Auth, hasher: Hasher, db: Queries, headers: Headers,
                        form: Option<PasswordForm>, salt: Salt, now: Time) returns (resp: Response)
    requires db.Valid()
    modifies db
    ensures db.Valid()
    ensures
      if form.None? then
        resp == DecodeFailure && db.State() == old(db.State())
      else if GetBearerToken(auth, headers).None? then
        resp == Response(StatusUnauthorized, Error("Invalid token")) && db.State() == old(db.State())
      else if Caller(auth, headers).None? then
        resp == Response(StatusUnauthorized, Error("Unauthorized")) && db.State() == old(db.State())
      else
        var id := Caller(auth, headers).value;
        if id !in old(db.users) then
          resp == Response(StatusInternalServerError, Error("Couldn't find user")) && db.State() == old(db.State())
        else if !hasher.check(old(db.users)[id].hashedPw, form.value.currentPassword) then
          && resp == Response(StatusUnauthorized, Error("Current password is incorrect"))
          && db.State() == old(db.State())
        else if hasher.hash(form.value.newPassword, salt).None? then
          && resp == Response(StatusInternalServerError, Error("Couldn't hash password"))
          && db.State() == old(db.State())
        else
          && resp == Response(StatusOK, Message("Password updated successfully"))
          && db.State() == old(db.State()).WithPassword(id, hasher.hash(form.value.newPassword, salt).value, now)
  {
    if form.None? {
      return DecodeFailure;
    }
    var params := form.value;
    var bearerToken := GetBearerToken(auth, headers);
    if bearerToken.None? {
      return Response(StatusUnauthorized, Error("Invalid token"));
    }
    var userId := ValidateJWT(auth, bearerToken.value);
    if userId.None? {
      return Response(StatusUnauthorized, Error("Unauthorized"));
    }
    if userId.value !in db.users {
      return Response(StatusInternalServerError, Error("Couldn't find user"));
    }
    var user := db.users[userId.value];
    if !hasher.check(user.hashedPw, params.currentPassword) {
      return Response(StatusUnauthorized, Error("Current password is incorrect"));
    }
    var hashedPassword := hasher.hash(params.newPassword, salt);
    if hashedPassword.None? {
      return Response(StatusInternalServerError, Error("Couldn't hash password"));
    }
    db.UpdatePassword(userId.value, hashedPassword.value, now);
    resp := Response(StatusOK, Message("Password updated successfully"));
  }

  /** Signing up and then logging in with the same email and password succeeds. */
  lemma SignupThenLogin(hasher: Hasher, db: Db, form: SignupForm, salt: Salt, now: Time, userId: UserId)
    requires Sound(hasher) && db.Valid()
    requires userId !in db.users && form.email !in db.emails
    requires hasher.hash(form.password, salt).Some?
    ensures var user := User(userId, form.email, hasher.hash(form.password, salt).value, now, now);
      db.WithUser(user).Valid() && LoginUser(hasher, db.WithUser(user), form.email, form.password) == Some(user)
  {
    var user := User(userId, form.email, hasher.hash(form.password, salt).value, now, now);
    assert hasher.check(user.hashedPw, form.password);
    assert UserByEmail(db.WithUser(user), form.email) == Some(user);
  }

  /**
   * After a password change the new password logs in; the change leaves
   * every refresh-token record as it was, so every refresh request gets
   * the same answer as before (outstanding sessions are not invalidated).
   */
  lemma PasswordChangeKeepsSessions(hasher: Hasher, auth: Auth, sql: Sql, db: Db, id: UserId,
                                    newPassword: string, salt: Salt, now: Time, headers: Headers, later: Time)
    requires Sound(hasher) && db.Valid() && id in db.users
    requires hasher.hash(newPassword, salt).Some?
    ensures var after := db.WithPassword(id, hasher.hash(newPassword, salt).value, now);
      && after.Valid()
      && LoginUser(hasher, after, db.users[id].email, newPassword) == Some(after.users[id])
      && after.refreshTokens == db.refreshTokens
      && RefreshJWT(auth, sql, after, headers, later) == RefreshJWT(auth, sql, db, headers, later)
  {
    var after := db.WithPassword(id, hasher.hash(newPassword, salt).value, now);
    assert hasher.check(after.users[id].hashedPw, newPassword);
    assert UserByEmail(after, db.users[id].email) == Some(after.users[id]);
    match GetBearerToken(auth, headers)
    case None =>
    case Some(token) =>
      var before, now' := UserFromRefreshToken(db, sql, token, later), UserFromRefreshToken(after, sql, token, later);
      assert before.Some? <==> now'.Some?;
      assert before.Some? ==> before.value.id == now'.value.id;
  }

  /**
   * The refresh token a login hands out renews for the user who logged in,
   * whenever the refresh query's filter accepts the new record.
   */
  lemma LoginThenRefresh(auth: Auth, sql: Sql, db: Db, user: User, refreshToken: Token, now: Time,
                         headers: Headers, later: Time)
    requires db.Valid() && user.id in db.users && db.users[user.id] == user
    requires refreshToken !in db.refreshTokens
    requires GetBearerToken(auth, headers) == Some(refreshToken)
    requires sql.refreshUsable(RefreshToken(refreshToken, user.id, now, now, now + RefreshTokenLifetime, None), later)
    ensures var after := db.WithRefreshToken(
              RefreshToken(refreshToken, user.id, now, now, now + RefreshTokenLifetime, None));
      && after.Valid()
      && RefreshJWT(auth, sql, after, headers, later) ==
         Response(StatusOK, Renewal(AccessToken(user.id, later, later + AccessTokenLifetime), RefreshExpiresIn))
  {
    var after := db.WithRefreshToken(
      RefreshToken(refreshToken, user.id, now, now, now + RefreshTokenLifetime, None));
    assert after.users == db.users && after.emails == db.emails;
    assert UserFromRefreshToken(after, sql, refreshToken, later) == Some(user);
  }

  /** Revoking the same token twice at the same time is the same as revoking it once. */
  lemma RevokeIsIdempotent(db: Db, token: Token, now: Time)
    ensures db.WithRevoked(token, now).WithRevoked(token, now) == db.WithRevoked(token, now)
  {
    if token in db.refreshTokens {
      var once := db.WithRevoked(token, now);
      assert once.refreshTokens[token := once.refreshTokens[token].(updatedAt := now, revokedAt := Some(now))]
             == once.refreshTokens;
    }
  }
}
