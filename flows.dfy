/**
 * Properties of the account and session life cycle that span several
 * handlers: a registration's emailed token verifies the new account, a
 * login's tokens refresh and authenticate, a logout revokes the refresh
 * token, and a forgot-password email's token resets the password.
 */
module Flows {
  import opened Prelude
  import opened Helpers
  import Config
  import opened UserService
  import opened Http
  import opened AuthController
  import opened UserController
  import opened AuthMiddleware

  /**
   * Following the link in the registration email, before its 20 minutes run
   * out, verifies the new account: the answer is 200, the account is marked
   * verified and its verification pair is cleared.
   */
  lemma RegisterThenVerify(s: Store, prim: Primitives, salt: string, newId: Id, bytes: TokenBytes, now: nat,
                           origin: Origin, firstName: string, lastName: string, username: string,
                           email: string, password: string, later: nat)
    requires Inv(s) && newId !in s.users
    requires forall u :: u in s.users.Values ==> u.username != username && u.email != email
    requires later <= now + 1_200_000
    requires forall u :: u in s.users.Values ==>
      u.emailVerificationToken != Some(CreateHashToken(prim, GenerateTemporaryToken(prim, bytes, now).unHashedToken))
    ensures var r := Register(s, prim, salt, newId, bytes, now, origin, firstName, lastName, username, email, password);
      && Inv(r.store)
      && var v := VerifyEmail(r.store, prim, Some(GenerateTemporaryToken(prim, bytes, now).unHashedToken), later);
      && HttpStatus(v.reply.response) == 200
      && newId in v.store.users && v.store.users[newId].isEmailVerified
      && v.store.users[newId].emailVerificationToken.None? && v.store.users[newId].emailVerificationExpiry.None?
  {
    var tok := GenerateTemporaryToken(prim, bytes, now);
    var digest := CreateHashToken(prim, tok.unHashedToken);
    RegisterCreatesUser(s, prim, salt, newId, bytes, now, origin, firstName, lastName, username, email, password);
    RegisteredStore(s, prim, salt, newId, bytes, now, firstName, lastName, username, email, password);
    RegisteredUser(s, prim, salt, newId, bytes, now, firstName, lastName, username, email, password);
    var t := Register(s, prim, salt, newId, bytes, now, origin, firstName, lastName, username, email, password).store;
    var v := t.users[newId];
    assert v in t.users.Values;
    forall w | w in t.users.Values && w.id != newId ensures w.emailVerificationToken != Some(digest) {
      var k :| k in t.users && t.users[k] == w;
      assert s.users[k] in s.users.Values;
    }
    VerifyEmailSucceeds(t, prim, tok.unHashedToken, later, v);
  }

  /**
   * The refresh token a login sets in the cookie gets a new access token,
   * as long as no other account holds the same token and the refresh secret
   * still verifies it to the login's claims.
   */
  lemma LoginThenRefresh(s: Store, prim: Primitives, cfg: Config.Settings, now: nat, u: User, password: string, later: nat)
    requires Inv(s) && u in s.users.Values && prim.bcryptCompare(password, u.password)
    requires prim.sign(AccessClaims(u), cfg.jwtSecret, cfg.jwtTokenExpiry, now).Some?
    requires prim.sign(RefreshClaims(u), cfg.jwtRefreshSecret, cfg.jwtRefreshTokenExpiry, now).Some?
    requires var refresh := prim.sign(RefreshClaims(u), cfg.jwtRefreshSecret, cfg.jwtRefreshTokenExpiry, now).value;
      && refresh != ""
      && prim.verify(refresh, cfg.jwtRefreshSecret, later) == Some(RefreshClaims(u))
      && (forall v :: v in s.users.Values && v.refreshToken == Some(refresh) ==> v.id == u.id)
    requires u.id != "" && u.username != ""
    requires prim.sign(AccessClaims(u), cfg.jwtSecret, cfg.jwtTokenExpiry, later).Some?
    ensures var o := Login(s, prim, cfg, now, u.username, password);
      && Inv(o.store) && o.reply.cookie.SetJwt?
      && var r := AuthController.Refresh(o.store, prim, cfg, later, Some(o.reply.cookie.value)).reply.response;
      && HttpStatus(r) == 201 && r.Json?
      && r.body.data == Some(AccessTokenData(prim.sign(AccessClaims(u), cfg.jwtSecret, cfg.jwtTokenExpiry, later).value))
  {
    var refresh := prim.sign(RefreshClaims(u), cfg.jwtRefreshSecret, cfg.jwtRefreshTokenExpiry, now).value;
    var p := Patch(refreshToken := Some(Some(refresh)));
    LoginSucceeds(s, prim, cfg, now, u, password);
    StoredUnderId(s, u);
    UpdateSoleMatch(s, u.id, p, RefreshTokenIs(refresh));
    var t := Login(s, prim, cfg, now, u.username, password).store;
    assert GetRefreshToken(t, refresh) == Some(Apply(u, p));
    assert AccessClaims(Apply(u, p)) == AccessClaims(u) && RefreshClaims(Apply(u, p)) == RefreshClaims(u);
    RefreshSucceeds(t, prim, cfg, later, Apply(u, p), refresh);
  }

  /**
   * The access token a login returns admits its holder through
   * `authenticate` as that user, with the role the user had at login, as
   * long as the access secret still verifies it to the login's claims.
   */
  lemma LoginThenAuthenticate(s: Store, prim: Primitives, cfg: Config.Settings, now: nat, u: User, password: string, later: nat)
    requires Inv(s) && u in s.users.Values && prim.bcryptCompare(password, u.password)
    requires prim.sign(AccessClaims(u), cfg.jwtSecret, cfg.jwtTokenExpiry, now).Some?
    requires prim.sign(RefreshClaims(u), cfg.jwtRefreshSecret, cfg.jwtRefreshTokenExpiry, now).Some?
    requires var access := prim.sign(AccessClaims(u), cfg.jwtSecret, cfg.jwtTokenExpiry, now).value;
      ' ' !in access && prim.verify(access, cfg.jwtSecret, later) == Some(AccessClaims(u))
    ensures var o := Login(s, prim, cfg, now, u.username, password);
      && o.reply.response.Json? && o.reply.response.body.data.Some? && o.reply.response.body.data.value.LoginData?
      && var header := Some(BEARER + o.reply.response.body.data.value.accessToken);
         PrincipalOf(Authenticate(prim, cfg, header, later)) == Authenticated(u.id, u.username, RoleName(u.role))
  {
    var access := prim.sign(AccessClaims(u), cfg.jwtSecret, cfg.jwtTokenExpiry, now).value;
    LoginSucceeds(s, prim, cfg, now, u, password);
    BearerTokenRoundTrip(access);
    AuthenticateAdmits(prim, cfg, Some(BEARER + access), later);
  }

  /** A logout with the cookie only its holder has leaves no account holding it. */
  lemma LogoutReleasesCookie(s: Store, cookie: string, u: User)
    requires Inv(s) && cookie != "" && u in s.users.Values && u.refreshToken == Some(cookie)
    requires forall v :: v in s.users.Values && v.refreshToken == Some(cookie) ==> v.id == u.id
    ensures Wellformed(Logout(s, Some(cookie)).store)
    ensures GetUserByProperty(Logout(s, Some(cookie)).store, RefreshTokenProperty, cookie).None?
  {
    var p := Patch(refreshToken := Some(None));
    StoredUnderId(s, u);
    assert GetRefreshToken(s, cookie) == Some(u) by {
      var w := GetRefreshToken(s, cookie).value;
      assert w.id == u.id;
    }
    UpdateReleases(s, u.id, p, RefreshTokenIs(cookie));
    assert Logout(s, Some(cookie)).store == Update(s, u.id, p).value;
  }

  /**
   * After a logout with the refresh cookie, the same cookie no longer gets a
   * new access token: no account holds it any more, so refresh answers 403.
   */
  lemma LogoutThenRefresh(s: Store, prim: Primitives, cfg: Config.Settings, now: nat, cookie: string, u: User)
    requires Inv(s) && cookie != "" && u in s.users.Values && u.refreshToken == Some(cookie)
    requires forall v :: v in s.users.Values && v.refreshToken == Some(cookie) ==> v.id == u.id
    ensures var o := Logout(s, Some(cookie));
      && Inv(o.store) && o.reply.cookie == ClearJwt(true)
      && AuthController.Refresh(o.store, prim, cfg, now, Some(cookie)).reply.response == StatusOnly(403)
  {
    LogoutOutcome(s, Some(cookie));
    LogoutReleasesCookie(s, cookie, u);
  }

  /**
   * The token in the forgot-password email resets the password before its
   * 20 minutes run out: the answer is 200, the account's password is the
   * hash of the new one, and its reset pair is cleared.
   */
  lemma ForgotThenReset(s: Store, prim: Primitives, cfg: Config.Settings, u: User, bytes: TokenBytes, now: nat,
                        later: nat, newPassword: string, salt: string)
    requires Inv(s) && u in s.users.Values && later <= now + 1_200_000
    requires forall v :: v in s.users.Values && v.id != u.id ==>
      v.resetPasswordToken != Some(CreateHashToken(prim, GenerateTemporaryToken(prim, bytes, now).unHashedToken))
    ensures var f := ForgotPassword(s, prim, cfg, u.email, bytes, now);
      && Inv(f.store)
      && var r := ResetPassword(f.store, prim, Some(GenerateTemporaryToken(prim, bytes, now).unHashedToken), newPassword, salt, later);
      && HttpStatus(r.reply.response) == 200
      && u.id in r.store.users && r.store.users[u.id].password == prim.bcryptHash(newPassword, salt)
      && r.store.users[u.id].resetPasswordToken.None? && r.store.users[u.id].resetPasswordExpiry.None?
  {
    var tok := GenerateTemporaryToken(prim, bytes, now);
    var digest := CreateHashToken(prim, tok.unHashedToken);
    var t := ForgotPassword(s, prim, cfg, u.email, bytes, now).store;
    ForgotPasswordOutcome(s, prim, cfg, u, bytes, now);
    StoredUnderId(s, u);
    var v := t.users[u.id];
    assert v in t.users.Values;
    forall w | w in t.users.Values && w.id != u.id ensures w.resetPasswordToken != Some(digest) {
      var k :| k in t.users && t.users[k] == w;
      assert s.users[k] in s.users.Values;
    }
    ResetPasswordSucceeds(t, prim, tok.unHashedToken, newPassword, salt, later, v);
  }
}
