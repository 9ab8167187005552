/**
 * Registration and the refresh-token session (server/src/controllers/v1/auth.controllers.ts).
 * Each handler is a function from the store before the request to the store
 * after it and the reply, and a method of the same name as the source's that
 * performs the same steps on a `UserStore`, proved equal to the function.
 */
module AuthController {
  import opened Prelude
  import opened ResponseHandler
  import opened ErrorMiddleware
  import opened Helpers
  import Config
  import opened UserService
  import opened Http

  /** The `jwt` cookie's lifetime: one day, in milliseconds. */
  const COOKIE_MAX_AGE_MS: nat := 24 * 60 * 60 * 1000

  /** The access-token payload `{ user: { _id, username, role } }` of a user. */
  function AccessClaims(u: User): Payload {
    Claims(Some(UserClaims(Some(u.id), Some(u.username), Some(RoleName(u.role)))), None, None)
  }

  /** The refresh-token payload `{ _id, username }` of a user. */
  function RefreshClaims(u: User): Payload {
    Claims(None, Some(u.id), Some(u.username))
  }

  /** The update that stores a fresh email-verification pair. */
  function VerificationPatch(t: TemporaryToken): (p: Patch)
    ensures KeepsPairs(p)
  {
    Patch(emailVerificationToken := Some(Some(t.hashedToken)), emailVerificationExpiry := Some(Some(t.tokenExpiry)))
  }

  /** The verification email for a user, with the link that carries the plain token. */
  function VerificationMail(u: User, link: string): Mail {
    Mail(u.email, "Please verify your email", Greeting(u), link)
  }

  function Created(message: string): Response {
    Json(201, NewApiResponse<ResponseData>(200, message))
  }

  // ---- registerUser ----

  /**
   * `registerUser`: reject a taken username or email, create the user, store
   * a verification pair and queue the email. The pair's update and the email
   * do not hold up the response, so their failure only means no email.
   */
  function Register(s: Store, prim: Primitives, salt: string, newId: Id, bytes: TokenBytes, now: nat,
                    origin: Origin, firstName: string, lastName: string, username: string,
                    email: string, password: string): (o: Outcome)
    requires Wellformed(s) && newId !in s.users
  {
    if FindExistingUser(s, username, email).Some? then
      Rejected(s, Fail(409, "User with email or username already exists!"))
    else match SignUp(s, prim, salt, newId, firstName, lastName, username, email, password)
      case None => Rejected(s, Fail(500, "Something went wrong while registering the user!"))
      case Some(s1) =>
        var tok := GenerateTemporaryToken(prim, bytes, now);
        var link := SiteRoot(origin) + "/api/v1/users/verify-email/" + tok.unHashedToken;
        match Update(s1, newId, VerificationPatch(tok))
        case None => Outcome(s1, Reply(Created("User created successfully!"), KeepCookie, None))
        case Some(s2) =>
          Outcome(s2, Reply(Created("User created successfully!"), KeepCookie, Some(VerificationMail(s2.users[newId], link))))
  }

  method RegisterUser(svc: UserStore, prim: Primitives, salt: string, newId: Id, bytes: TokenBytes, now: nat,
                      origin: Origin, firstName: string, lastName: string, username: string,
                      email: string, password: string) returns (reply: Reply)
    requires Wellformed(svc.Snapshot()) && newId !in svc.users
    modifies svc
    ensures Outcome(svc.Snapshot(), reply) ==
            Register(old(svc.Snapshot()), prim, salt, newId, bytes, now, origin, firstName, lastName, username, email, password)
  {
    var duplicateUser := FindExistingUser(svc.Snapshot(), username, email);
    if duplicateUser.Some? {
      return Reply(Fail(409, "User with email or username already exists!"), KeepCookie, None);
    }
    var user := svc.UserSignUp(prim, salt, newId, firstName, lastName, username, email, password);
    if user.None? {
      return Reply(Fail(500, "Something went wrong while registering the user!"), KeepCookie, None);
    }
    var tok := GenerateTemporaryToken(prim, bytes, now);
    var updated := svc.UpdateUser(newId, VerificationPatch(tok));
    var mail := None;
    if updated.Some? {
      mail := Some(VerificationMail(updated.value, SiteRoot(origin) + "/api/v1/users/verify-email/" + tok.unHashedToken));
    }
    return Reply(Created("User created successfully!"), KeepCookie, mail);
  }

  /**
   * `registerUser` with `generateTemporaryToken` as written: the token step
   * throws a RangeError ("Invalid time value") after the user has been
   * created, so the client gets a 500 while the account exists without a
   * verification token and no email is sent.
   */
  function RegisterAsWritten(s: Store, prim: Primitives, cfg: Config.Settings, salt: string, newId: Id,
                             bytes: TokenBytes, now: nat, origin: Origin, firstName: string, lastName: string,
                             username: string, email: string, password: string): (o: Outcome)
    requires Wellformed(s) && newId !in s.users
  {
    if FindExistingUser(s, username, email).Some? then
      Rejected(s, Fail(409, "User with email or username already exists!"))
    else match SignUp(s, prim, salt, newId, firstName, lastName, username, email, password)
      case None => Rejected(s, Fail(500, "Something went wrong while registering the user!"))
      case Some(s1) =>
        match GenerateTemporaryTokenAsWritten(prim, cfg, bytes, now)
        case None => Rejected(s1, Forward(OtherError("Invalid time value", "")))
        case Some(tok) =>
          var link := SiteRoot(origin) + "/api/v1/users/verify-email/" + tok.unHashedToken;
          match Update(s1, newId, VerificationPatch(tok))
          case None => Outcome(s1, Reply(Created("User created successfully!"), KeepCookie, None))
          case Some(s2) =>
            Outcome(s2, Reply(Created("User created successfully!"), KeepCookie, Some(VerificationMail(s2.users[newId], link))))
  }

  /**
   * Under the configuration the server builds, every registration of a new
   * username and email answers 500 and still leaves the account behind,
   * unverified and without a verification token.
   */
  lemma RegisterAsWrittenFails(s: Store, prim: Primitives, env: Config.Env, salt: string, newId: Id,
                               bytes: TokenBytes, now: nat, origin: Origin, firstName: string, lastName: string,
                               username: string, email: string, password: string)
    requires Wellformed(s) && newId !in s.users
    requires forall u :: u in s.users.Values ==> u.username != username && u.email != email
    ensures var o := RegisterAsWritten(s, prim, Config.FromEnv(env), salt, newId, bytes, now, origin,
                                       firstName, lastName, username, email, password);
      && HttpStatus(o.reply.response) == 500 && o.reply.mail.None?
      && newId in o.store.users && o.store.users[newId].username == username
      && o.store.users[newId].emailVerificationToken.None? && !o.store.users[newId].isEmailVerified
      && Some(o.store) == SignUp(s, prim, salt, newId, firstName, lastName, username, email, password)
  {
    TemporaryTokenAsWrittenThrows(prim, env, bytes, now);
  }

  /** A username or an email that is already taken is refused with 409 and nothing is stored. */
  lemma RegisterRejectsDuplicates(s: Store, prim: Primitives, salt: string, newId: Id, bytes: TokenBytes, now: nat,
                                  origin: Origin, firstName: string, lastName: string, username: string,
                                  email: string, password: string)
    requires Wellformed(s) && newId !in s.users
    requires exists u :: u in s.users.Values && (u.username == username || u.email == email)
    ensures var o := Register(s, prim, salt, newId, bytes, now, origin, firstName, lastName, username, email, password);
      o.store == s && HttpStatus(o.reply.response) == 409 && o.reply.mail.None?
  {
  }

  /** The store a successful registration leaves: the new user, with the token's verification pair. */
  function Registered(s: Store, prim: Primitives, salt: string, newId: Id, bytes: TokenBytes, now: nat,
                      firstName: string, lastName: string, username: string, email: string, password: string): Store
    requires newId !in s.users
  {
    Store(s.users[newId := Apply(NewUser(prim, salt, newId, firstName, lastName, username, email, password, Basic),
                                 VerificationPatch(GenerateTemporaryToken(prim, bytes, now)))],
          s.order + [newId])
  }

  /** A registration with a new username and email ends in `Registered` and sends the verification email. */
  lemma RegisterFresh(s: Store, prim: Primitives, salt: string, newId: Id, bytes: TokenBytes, now: nat,
                      origin: Origin, firstName: string, lastName: string, username: string,
                      email: string, password: string)
    requires Wellformed(s) && newId !in s.users
    requires forall u :: u in s.users.Values ==> u.username != username && u.email != email
    ensures var o := Register(s, prim, salt, newId, bytes, now, origin, firstName, lastName, username, email, password);
      && o.store == Registered(s, prim, salt, newId, bytes, now, firstName, lastName, username, email, password)
      && o.reply.response == Created("User created successfully!") && o.reply.cookie == KeepCookie
      && o.reply.mail == Some(Mail(email, "Please verify your email", firstName,
           SiteRoot(origin) + "/api/v1/users/verify-email/" + GenerateTemporaryToken(prim, bytes, now).unHashedToken))
  {
    var s1 := SignUp(s, prim, salt, newId, firstName, lastName, username, email, password).value;
    var u := NewUser(prim, salt, newId, firstName, lastName, username, email, password, Basic);
    assert s1.users[newId] == u;
    var tok := GenerateTemporaryToken(prim, bytes, now);
    var s2 := Update(s1, newId, VerificationPatch(tok)).value;
    assert s2.users == s1.users[newId := Apply(u, VerificationPatch(tok))];
    assert s1.users[newId := Apply(u, VerificationPatch(tok))] == s.users[newId := Apply(u, VerificationPatch(tok))];
  }

  /**
   * The store after a successful registration has exactly one more user,
   * created last, and keeps the invariant.
   */
  lemma RegisteredStore(s: Store, prim: Primitives, salt: string, newId: Id, bytes: TokenBytes, now: nat,
                        firstName: string, lastName: string, username: string, email: string, password: string)
    requires Inv(s) && newId !in s.users
    requires forall u :: u in s.users.Values ==> u.username != username && u.email != email
    ensures var r := Registered(s, prim, salt, newId, bytes, now, firstName, lastName, username, email, password);
      && r.order == s.order + [newId]
      && r.users.Keys == s.users.Keys + {newId}
      && (forall id :: id in s.users ==> r.users[id] == s.users[id])
      && Inv(r)
  {
    var u := NewUser(prim, salt, newId, firstName, lastName, username, email, password, Basic);
    var p := VerificationPatch(GenerateTemporaryToken(prim, bytes, now));
    ApplyKeepsPairs(u, p);
    InsertKeepsInv(s, Apply(u, p));
  }

  /**
   * The user a registration creates is unverified and holds the password's
   * hash and the digest of the emailed token, with a 20-minute expiry.
   */
  lemma RegisteredUser(s: Store, prim: Primitives, salt: string, newId: Id, bytes: TokenBytes, now: nat,
                       firstName: string, lastName: string, username: string, email: string, password: string)
    requires newId !in s.users
    ensures var v := Registered(s, prim, salt, newId, bytes, now, firstName, lastName, username, email, password).users[newId];
      var tok := GenerateTemporaryToken(prim, bytes, now);
      && v.id == newId && v.username == username && v.email == email && v.role == Basic
      && v.password == prim.bcryptHash(password, salt) && !v.isEmailVerified
      && v.profile == Some(Profile(firstName, lastName, None))
      && v.refreshToken.None? && v.resetPasswordToken.None?
      && v.emailVerificationToken == Some(CreateHashToken(prim, tok.unHashedToken))
      && v.emailVerificationExpiry == Some(now + 1_200_000)
  {
  }

  /**
   * A registration with a new username and email answers 201 (body code 200),
   * sends the verification email to the new address, and leaves the store
   * `RegisteredStore` describes.
   */
  lemma RegisterCreatesUser(s: Store, prim: Primitives, salt: string, newId: Id, bytes: TokenBytes, now: nat,
                            origin: Origin, firstName: string, lastName: string, username: string,
                            email: string, password: string)
    requires Inv(s) && newId !in s.users
    requires forall u :: u in s.users.Values ==> u.username != username && u.email != email
    ensures var o := Register(s, prim, salt, newId, bytes, now, origin, firstName, lastName, username, email, password);
      && HttpStatus(o.reply.response) == 201
      && o.reply.response.body.statusCode == 200 && o.reply.response.body.message == "User created successfully!"
      && o.reply.mail == Some(Mail(email, "Please verify your email", firstName,
           SiteRoot(origin) + "/api/v1/users/verify-email/" + GenerateTemporaryToken(prim, bytes, now).unHashedToken))
      && o.store == Registered(s, prim, salt, newId, bytes, now, firstName, lastName, username, email, password)
      && Inv(o.store)
  {
    RegisterFresh(s, prim, salt, newId, bytes, now, origin, firstName, lastName, username, email, password);
    RegisteredStore(s, prim, salt, newId, bytes, now, firstName, lastName, username, email, password);
  }

  // ---- loginUser ----

  /**
   * `loginUser`: find the user by exact username, check the password, sign
   * an access and a refresh token, store the refresh token (replacing any
   * earlier one) and hand it back as the `jwt` cookie.
   */
  function Login(s: Store, prim: Primitives, cfg: Config.Settings, now: nat,
                 username: string, password: string): (o: Outcome)
    requires Wellformed(s)
    ensures SameAccounts(s, o.store)
  {
    match GetUserByProperty(s, UsernameProperty, username)
    case None => Rejected(s, Fail(400, "User not found!"))
    case Some(u) =>
      if !prim.bcryptCompare(password, u.password) then Rejected(s, Fail(400, "Invalid Password!"))
      else match GenerateAccessToken(prim, cfg, AccessClaims(u), now)
      case None => Rejected(s, Fail(500, "Something went wrong!"))
      case Some(accessToken) =>
        match GenerateRefreshToken(prim, cfg, RefreshClaims(u), now)
        case None => Rejected(s, Fail(500, "Something went wrong!"))
        case Some(refreshToken) =>
          match Update(s, u.id, Patch(refreshToken := Some(Some(refreshToken))))
          case None => Rejected(s, Fail(500, "Something went wrong!"))
          case Some(s1) =>
            Outcome(s1, Reply(Json(201, NewApiResponse(200, "Login successful!", Some(LoginData(accessToken, PublicProfile(u))))),
                              SetJwt(refreshToken, true, COOKIE_MAX_AGE_MS), None))
  }

  method LoginUser(svc: UserStore, prim: Primitives, cfg: Config.Settings, now: nat,
                   username: string, password: string) returns (reply: Reply)
    requires Wellformed(svc.Snapshot())
    modifies svc
    ensures Outcome(svc.Snapshot(), reply) == Login(old(svc.Snapshot()), prim, cfg, now, username, password)
  {
    var foundUser := GetUserByProperty(svc.Snapshot(), UsernameProperty, username);
    if foundUser.None? {
      return Reply(Fail(400, "User not found!"), KeepCookie, None);
    }
    var u := foundUser.value;
    if !prim.bcryptCompare(password, u.password) {
      return Reply(Fail(400, "Invalid Password!"), KeepCookie, None);
    }
    var accessToken := GenerateAccessToken(prim, cfg, AccessClaims(u), now);
    if accessToken.None? {
      return Reply(Fail(500, "Something went wrong!"), KeepCookie, None);
    }
    var refreshToken := GenerateRefreshToken(prim, cfg, RefreshClaims(u), now);
    if refreshToken.None? {
      return Reply(Fail(500, "Something went wrong!"), KeepCookie, None);
    }
    var result := svc.UpdateUser(u.id, Patch(refreshToken := Some(Some(refreshToken.value))));
    if result.None? {
      return Reply(Fail(500, "Something went wrong!"), KeepCookie, None);
    }
    reply := Reply(Json(201, NewApiResponse(200, "Login successful!", Some(LoginData(accessToken.value, PublicProfile(u))))),
                   SetJwt(refreshToken.value, true, COOKIE_MAX_AGE_MS), None);
  }

  /** An unknown username or a wrong password is refused with 400 and changes nothing. */
  lemma LoginFailures(s: Store, prim: Primitives, cfg: Config.Settings, now: nat, username: string, password: string)
    requires Wellformed(s)
    ensures var o := Login(s, prim, cfg, now, username, password);
      && ((forall u :: u in s.users.Values ==> u.username != username) ==>
            o.store == s && o.reply.response == Fail(400, "User not found!") && o.reply.cookie == KeepCookie)
      && (forall u :: u in s.users.Values && u.username == username && !prim.bcryptCompare(password, u.password) ==>
            Inv(s) ==> o.store == s && o.reply.response == Fail(400, "Invalid Password!") && o.reply.cookie == KeepCookie)
  {
    forall u | u in s.users.Values && u.username == username && !prim.bcryptCompare(password, u.password) && Inv(s)
      ensures Login(s, prim, cfg, now, username, password).reply.response == Fail(400, "Invalid Password!")
    {
      UniqueLookup(s, u, UsernameIs(username));
    }
  }

  /** A known username with the right password gets past both checks: 201, or 500 when signing fails. */
  lemma LoginPastChecks(s: Store, prim: Primitives, cfg: Config.Settings, now: nat, u: User, password: string)
    requires Inv(s) && u in s.users.Values && prim.bcryptCompare(password, u.password)
    ensures HttpStatus(Login(s, prim, cfg, now, u.username, password).reply.response) in {201, 500}
  {
    UniqueLookup(s, u, UsernameIs(u.username));
  }

  /** The answer to a login with the right password, when both tokens are signed. */
  lemma LoginReply(s: Store, prim: Primitives, cfg: Config.Settings, now: nat, u: User, password: string)
    requires Inv(s) && u in s.users.Values && prim.bcryptCompare(password, u.password)
    requires prim.sign(AccessClaims(u), cfg.jwtSecret, cfg.jwtTokenExpiry, now).Some?
    requires prim.sign(RefreshClaims(u), cfg.jwtRefreshSecret, cfg.jwtRefreshTokenExpiry, now).Some?
    ensures var access := prim.sign(AccessClaims(u), cfg.jwtSecret, cfg.jwtTokenExpiry, now).value;
      var refresh := prim.sign(RefreshClaims(u), cfg.jwtRefreshSecret, cfg.jwtRefreshTokenExpiry, now).value;
      var s1 := Update(s, u.id, Patch(refreshToken := Some(Some(refresh))));
      && s1.Some?
      && Login(s, prim, cfg, now, u.username, password) ==
         Outcome(s1.value, Reply(Json(201, NewApiResponse(200, "Login successful!", Some(LoginData(access, PublicProfile(u))))),
                                 SetJwt(refresh, true, COOKIE_MAX_AGE_MS), None))
  {
    UniqueLookup(s, u, UsernameIs(u.username));
    assert GetUserByProperty(s, UsernameProperty, u.username) == Some(u);
    StoredUnderId(s, u);
  }

  /**
   * A successful login signs exactly `{ user: { _id, username, role } }` with
   * the access secret and `{ _id, username }` with the refresh secret, stores
   * the refresh token on that user only, sets it as an http-only cookie for a
   * day, answers 201 (body code 200) and keeps the store's invariant.
   */
  lemma LoginSucceeds(s: Store, prim: Primitives, cfg: Config.Settings, now: nat, u: User, password: string)
    requires Inv(s) && u in s.users.Values && prim.bcryptCompare(password, u.password)
    requires prim.sign(AccessClaims(u), cfg.jwtSecret, cfg.jwtTokenExpiry, now).Some?
    requires prim.sign(RefreshClaims(u), cfg.jwtRefreshSecret, cfg.jwtRefreshTokenExpiry, now).Some?
    ensures var o := Login(s, prim, cfg, now, u.username, password);
      var access := prim.sign(AccessClaims(u), cfg.jwtSecret, cfg.jwtTokenExpiry, now).value;
      var refresh := prim.sign(RefreshClaims(u), cfg.jwtRefreshSecret, cfg.jwtRefreshTokenExpiry, now).value;
      && Some(o.store) == Update(s, u.id, Patch(refreshToken := Some(Some(refresh))))
      && o.store.users[u.id].refreshToken == Some(refresh)
      && o.reply.cookie == SetJwt(refresh, true, 86_400_000)
      && o.reply.response.Json? && HttpStatus(o.reply.response) == 201 && o.reply.response.body.statusCode == 200
      && o.reply.response.body.data == Some(LoginData(access, PublicProfile(u)))
      && Inv(o.store)
  {
    var refresh := prim.sign(RefreshClaims(u), cfg.jwtRefreshSecret, cfg.jwtRefreshTokenExpiry, now).value;
    LoginReply(s, prim, cfg, now, u, password);
    StoredUnderId(s, u);
    UpdateKeepsInv(s, u.id, Patch(refreshToken := Some(Some(refresh))));
  }

  /**
   * A login replaces the user's refresh token: a different token that only
   * this user held before no longer matches any user.
   */
  lemma LoginRevokesEarlierRefreshTokens(s: Store, prim: Primitives, cfg: Config.Settings, now: nat,
                                         u: User, password: string, earlier: string)
    requires Inv(s) && u in s.users.Values && prim.bcryptCompare(password, u.password)
    requires prim.sign(AccessClaims(u), cfg.jwtSecret, cfg.jwtTokenExpiry, now).Some?
    requires var r := prim.sign(RefreshClaims(u), cfg.jwtRefreshSecret, cfg.jwtRefreshTokenExpiry, now);
      r.Some? && r.value != earlier
    requires forall v :: v in s.users.Values && v.refreshToken == Some(earlier) ==> v.id == u.id
    ensures var o := Login(s, prim, cfg, now, u.username, password);
      Wellformed(o.store) && GetRefreshToken(o.store, earlier).None?
  {
    LoginSucceeds(s, prim, cfg, now, u, password);
    StoredUnderId(s, u);
    var r := prim.sign(RefreshClaims(u), cfg.jwtRefreshSecret, cfg.jwtRefreshTokenExpiry, now).value;
    UpdateReleases(s, u.id, Patch(refreshToken := Some(Some(r))), RefreshTokenIs(earlier));
  }

  // ---- logoutUser ----

  /**
   * `logoutUser`: without a cookie, 204; with a cookie no user holds, clear
   * it and 204; otherwise null that user's refresh token, clear the cookie
   * and 204.
   */
  function Logout(s: Store, cookie: Option<string>): (o: Outcome)
    requires Wellformed(s)
    ensures SameAccounts(s, o.store)
  {
    if !Truthy(cookie) then Outcome(s, Reply(SendStatus(204), KeepCookie, None))
    else match GetUserByProperty(s, RefreshTokenProperty, cookie.value)
      case None => Outcome(s, Reply(SendStatus(204), ClearJwt(true), None))
      case Some(u) =>
        match Update(s, u.id, Patch(refreshToken := Some(None)))
        case None => Outcome(s, Reply(SendStatus(403), KeepCookie, None))
        case Some(s1) => Outcome(s1, Reply(SendStatus(204), ClearJwt(true), None))
  }

  method LogoutUser(svc: UserStore, cookie: Option<string>) returns (reply: Reply)
    requires Wellformed(svc.Snapshot())
    modifies svc
    ensures Outcome(svc.Snapshot(), reply) == Logout(old(svc.Snapshot()), cookie)
  {
    if !Truthy(cookie) {
      return Reply(SendStatus(204), KeepCookie, None);
    }
    var refreshToken := cookie.value;
    var foundUser := GetUserByProperty(svc.Snapshot(), RefreshTokenProperty, refreshToken);
    if foundUser.None? {
      return Reply(SendStatus(204), ClearJwt(true), None);
    }
    var result := svc.UpdateUser(foundUser.value.id, Patch(refreshToken := Some(None)));
    if result.None? {
      return Reply(SendStatus(403), KeepCookie, None);
    }
    return Reply(SendStatus(204), ClearJwt(true), None);
  }

  /**
   * Logout always answers 204. It changes the store only when a user holds
   * the cookie's token, and then only by nulling that user's refresh token;
   * the cookie is cleared whenever one was sent.
   */
  lemma LogoutOutcome(s: Store, cookie: Option<string>)
    requires Inv(s)
    ensures var o := Logout(s, cookie);
      && o.reply.response == SendStatus(204)
      && (Truthy(cookie) <==> o.reply.cookie == ClearJwt(true))
      && (!Truthy(cookie) || GetRefreshToken(s, cookie.value).None? ==> o.store == s)
      && (Truthy(cookie) && GetRefreshToken(s, cookie.value).Some? ==>
            Some(o.store) == Update(s, GetRefreshToken(s, cookie.value).value.id, Patch(refreshToken := Some(None))))
      && Inv(o.store)
  {
    if Truthy(cookie) && GetRefreshToken(s, cookie.value).Some? {
      UpdateKeepsInv(s, GetRefreshToken(s, cookie.value).value.id, Patch(refreshToken := Some(None)));
    }
  }

  /** When at most one user holds the token, logging out twice is logging out once. */
  lemma LogoutIdempotent(s: Store, cookie: Option<string>)
    requires Wellformed(s)
    requires Truthy(cookie) ==>
      forall a, b :: (a in s.users.Values && b in s.users.Values &&
        a.refreshToken == Some(cookie.value) && b.refreshToken == Some(cookie.value)) ==> a == b
    ensures var once := Logout(s, cookie);
      Wellformed(once.store) && Logout(once.store, cookie) == once
  {
    if Truthy(cookie) && GetRefreshToken(s, cookie.value).Some? {
      var u := GetRefreshToken(s, cookie.value).value;
      StoredUnderId(s, u);
      UpdateReleases(s, u.id, Patch(refreshToken := Some(None)), RefreshTokenIs(cookie.value));
    }
  }

  // ---- refreshAccessToken ----

  /** The payload checks of `refreshAccessToken`: an object payload naming this user. */
  predicate RefreshPayloadFits(decoded: Option<Payload>, u: User) {
    && decoded.Some? && decoded.value.Claims?
    && Truthy(decoded.value.id) && Truthy(decoded.value.username)
    && decoded.value.id.value == u.id && decoded.value.username.value == u.username
  }

  /**
   * `refreshAccessToken`: without a cookie, 401; with a token no user holds,
   * the status is set to 403 and nothing is sent; with a token that does not
   * verify under the refresh secret or names another user, 403; otherwise a
   * new access token. The store never changes.
   */
  function Refresh(s: Store, prim: Primitives, cfg: Config.Settings, now: nat, cookie: Option<string>): (o: Outcome)
    requires Wellformed(s)
    ensures o.store == s && o.reply.cookie == KeepCookie && o.reply.mail.None?
  {
    if !Truthy(cookie) then Rejected(s, SendStatus(401))
    else match GetUserByProperty(s, RefreshTokenProperty, cookie.value)
      case None => Rejected(s, StatusOnly(403))
      case Some(u) =>
        if !RefreshPayloadFits(VerifyToken(prim, cfg, cookie.value, now, TokenKind.Refresh), u) then Rejected(s, SendStatus(403))
        else match GenerateAccessToken(prim, cfg, AccessClaims(u), now)
          case None => Rejected(s, Fail(500, "Something went wrong!"))
          case Some(accessToken) =>
            Rejected(s, Json(201, NewApiResponse(200, "Success!", Some(AccessTokenData(accessToken)))))
  }

  method RefreshAccessToken(svc: UserStore, prim: Primitives, cfg: Config.Settings, now: nat, cookie: Option<string>)
    returns (reply: Reply)
    requires Wellformed(svc.Snapshot())
    ensures Outcome(svc.Snapshot(), reply) == Refresh(svc.Snapshot(), prim, cfg, now, cookie)
  {
    if !Truthy(cookie) {
      return Reply(SendStatus(401), KeepCookie, None);
    }
    var refreshToken := cookie.value;
    var foundUser := GetUserByProperty(svc.Snapshot(), RefreshTokenProperty, refreshToken);
    if foundUser.None? {
      return Reply(StatusOnly(403), KeepCookie, None);
    }
    var decoded := VerifyToken(prim, cfg, refreshToken, now, TokenKind.Refresh);
    if !RefreshPayloadFits(decoded, foundUser.value) {
      return Reply(SendStatus(403), KeepCookie, None);
    }
    var accessToken := GenerateAccessToken(prim, cfg, AccessClaims(foundUser.value), now);
    if accessToken.None? {
      return Reply(Fail(500, "Something went wrong!"), KeepCookie, None);
    }
    return Reply(Json(201, NewApiResponse(200, "Success!", Some(AccessTokenData(accessToken.value)))), KeepCookie, None);
  }

  /**
   * The refresh statuses: 401 without a cookie, 403 (status set, nothing sent)
   * when no user holds the token, 403 when the token's payload does not name
   * its holder, and 201 with the access token signed over the holder's claims
   * otherwise.
   */
  lemma RefreshStatuses(s: Store, prim: Primitives, cfg: Config.Settings, now: nat, cookie: Option<string>)
    requires Wellformed(s)
    ensures var r := Refresh(s, prim, cfg, now, cookie).reply.response;
      && (!Truthy(cookie) ==> r == SendStatus(401))
      && (Truthy(cookie) && GetRefreshToken(s, cookie.value).None? ==> r == StatusOnly(403))
      && (Truthy(cookie) && GetRefreshToken(s, cookie.value).Some? ==>
            var u := GetRefreshToken(s, cookie.value).value;
            && (!RefreshPayloadFits(prim.verify(cookie.value, cfg.jwtRefreshSecret, now), u) ==> r == SendStatus(403))
            && (RefreshPayloadFits(prim.verify(cookie.value, cfg.jwtRefreshSecret, now), u) &&
                prim.sign(AccessClaims(u), cfg.jwtSecret, cfg.jwtTokenExpiry, now).Some? ==>
                  HttpStatus(r) == 201 && r.body.statusCode == 200 &&
                  r.body.data == Some(AccessTokenData(prim.sign(AccessClaims(u), cfg.jwtSecret, cfg.jwtTokenExpiry, now).value))))
  {
  }

  /**
   * The cookie of the user that holds it, verifying under the refresh
   * secret to that user's `{ _id, username }`, gets a new access token for
   * that user: 201 with the token signed over the user's access claims.
   */
  lemma RefreshSucceeds(s: Store, prim: Primitives, cfg: Config.Settings, now: nat, u: User, token: string)
    requires Wellformed(s) && token != "" && GetRefreshToken(s, token) == Some(u)
    requires u.id != "" && u.username != ""
    requires prim.verify(token, cfg.jwtRefreshSecret, now) == Some(RefreshClaims(u))
    requires prim.sign(AccessClaims(u), cfg.jwtSecret, cfg.jwtTokenExpiry, now).Some?
    ensures var r := Refresh(s, prim, cfg, now, Some(token)).reply.response;
      && HttpStatus(r) == 201 && r.Json?
      && r.body.data == Some(AccessTokenData(prim.sign(AccessClaims(u), cfg.jwtSecret, cfg.jwtTokenExpiry, now).value))
  {
    RefreshStatuses(s, prim, cfg, now, Some(token));
  }
}
