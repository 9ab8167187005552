/**
 * Email verification and password recovery (server/src/controllers/v1/user.controllers.ts).
 * As in the registration handlers, each handler is a function over the store
 * and a method on `UserStore` proved to agree with it. The one-time tokens
 * travel in plain text (in links) and are stored as SHA-256 digests with an
 * expiry 20 minutes after they were issued.
 */
module UserController {
  import opened Prelude
  import opened ResponseHandler
  import opened ErrorMiddleware
  import opened Helpers
  import Config
  import opened UserService
  import opened Http
  import AuthController

  function Ok(message: string): Response {
    Json(200, NewApiResponse<ResponseData>(200, message))
  }

  // ---- getAllUsers ----

  /** `getAllUsers`: every user, in creation order. */
  function GetAllUsers(s: Store): (o: Outcome)
    requires Wellformed(s)
    ensures o.store == s && HttpStatus(o.reply.response) == 200
    ensures o.reply.response.Json? && o.reply.response.body.data.Some? && o.reply.response.body.data.value.UserList?
    ensures var users := o.reply.response.body.data.value.users;
      |users| == |s.users| && forall u :: u in users <==> u in s.users.Values
  {
    Rejected(s, Json(200, NewApiResponse(200, "Users fetched successfully !", Some(UserList(AllUsers(s))))))
  }

  // ---- verifyEmail ----

  /** The update that marks the email verified and spends the verification pair. */
  const VERIFIED_PATCH := Patch(isEmailVerified := Some(true), emailVerificationToken := Some(None),
                                emailVerificationExpiry := Some(None))

  /**
   * `verifyEmail`: the token from the path is hashed and looked up among
   * unexpired verification pairs; the holder is marked verified and the pair
   * is cleared.
   */
  function VerifyEmail(s: Store, prim: Primitives, token: Option<string>, now: nat): (o: Outcome)
    requires Wellformed(s)
    ensures SameAccounts(s, o.store)
  {
    if !Truthy(token) then Rejected(s, Fail(400, "Email verification token is missing"))
    else match VerifyEmailToken(s, CreateHashToken(prim, token.value), now)
      case None => Rejected(s, Fail(489, "Invalid verification token"))
      case Some(u) =>
        match Update(s, u.id, VERIFIED_PATCH)
        case None => Rejected(s, UPDATE_NOT_FOUND)
        case Some(s1) => Outcome(s1, Reply(Ok("Email verified successfully !"), KeepCookie, None))
  }

  method VerifyEmailHandler(svc: UserStore, prim: Primitives, token: Option<string>, now: nat) returns (reply: Reply)
    requires Wellformed(svc.Snapshot())
    modifies svc
    ensures Outcome(svc.Snapshot(), reply) == VerifyEmail(old(svc.Snapshot()), prim, token, now)
  {
    if !Truthy(token) {
      return Reply(Fail(400, "Email verification token is missing"), KeepCookie, None);
    }
    var hashedToken := CreateHashToken(prim, token.value);
    var user := VerifyEmailToken(svc.Snapshot(), hashedToken, now);
    if user.None? {
      return Reply(Fail(489, "Invalid verification token"), KeepCookie, None);
    }
    var updated := svc.UpdateUser(user.value.id, VERIFIED_PATCH);
    if updated.None? {
      return Reply(UPDATE_NOT_FOUND, KeepCookie, None);
    }
    return Reply(Ok("Email verified successfully !"), KeepCookie, None);
  }

  /**
   * A live token marks its holder verified, clears the holder's pair, changes
   * no one else and keeps the invariant; missing or unknown tokens change
   * nothing.
   */
  lemma VerifyEmailOutcome(s: Store, prim: Primitives, token: Option<string>, now: nat)
    requires Inv(s)
    ensures var o := VerifyEmail(s, prim, token, now);
      && Inv(o.store)
      && (!Truthy(token) ==> o.store == s && HttpStatus(o.reply.response) == 400)
      && (Truthy(token) && VerifyEmailToken(s, CreateHashToken(prim, token.value), now).None? ==>
            o.store == s && HttpStatus(o.reply.response) == 489)
      && (Truthy(token) && VerifyEmailToken(s, CreateHashToken(prim, token.value), now).Some? ==>
            var id := VerifyEmailToken(s, CreateHashToken(prim, token.value), now).value.id;
            && HttpStatus(o.reply.response) == 200
            && o.store.users.Keys == s.users.Keys && o.store.order == s.order
            && o.store.users[id].isEmailVerified
            && o.store.users[id].emailVerificationToken.None? && o.store.users[id].emailVerificationExpiry.None?
            && o.store.users[id].password == s.users[id].password
            && (forall other :: other in s.users && other != id ==> o.store.users[other] == s.users[other]))
  {
    if Truthy(token) && VerifyEmailToken(s, CreateHashToken(prim, token.value), now).Some? {
      UpdateKeepsInv(s, VerifyEmailToken(s, CreateHashToken(prim, token.value), now).value.id, VERIFIED_PATCH);
    }
  }

  /**
   * A live token whose digest only this user holds verifies that user: the
   * answer is 200 and the user is marked verified with the pair cleared.
   */
  lemma VerifyEmailSucceeds(s: Store, prim: Primitives, token: string, now: nat, u: User)
    requires Inv(s) && u in s.users.Values && token != ""
    requires u.emailVerificationToken == Some(CreateHashToken(prim, token))
    requires u.emailVerificationExpiry.Some? && u.emailVerificationExpiry.value >= now
    requires forall v :: v in s.users.Values && v.id != u.id ==> v.emailVerificationToken != Some(CreateHashToken(prim, token))
    ensures var o := VerifyEmail(s, prim, Some(token), now);
      && Inv(o.store) && HttpStatus(o.reply.response) == 200
      && u.id in o.store.users && o.store.users[u.id].isEmailVerified
      && o.store.users[u.id].emailVerificationToken.None? && o.store.users[u.id].emailVerificationExpiry.None?
  {
    var q := LiveEmailToken(CreateHashToken(prim, token), now);
    StoredUnderId(s, u);
    forall w | w in s.users.Values && Matches(w, q) ensures w == u {
      var k :| k in s.users && s.users[k] == w;
    }
    FindTheOnly(s, q, u);
    VerifyEmailOutcome(s, prim, Some(token), now);
  }

  /**
   * A verification link works once: when one user held the token's digest,
   * the same token is refused with 489 afterwards, at any later time.
   */
  lemma VerifyEmailOnce(s: Store, prim: Primitives, token: string, now: nat, later: nat)
    requires Inv(s) && token != ""
    requires forall a, b :: (a in s.users.Values && b in s.users.Values &&
      a.emailVerificationToken == Some(CreateHashToken(prim, token)) &&
      b.emailVerificationToken == Some(CreateHashToken(prim, token))) ==> a == b
    requires VerifyEmail(s, prim, Some(token), now).reply.response.Json?
    ensures var o := VerifyEmail(s, prim, Some(token), now);
      Wellformed(o.store) && VerifyEmail(o.store, prim, Some(token), later) ==
        Rejected(o.store, Fail(489, "Invalid verification token"))
  {
    var digest := CreateHashToken(prim, token);
    var u := VerifyEmailToken(s, digest, now).value;
    StoredUnderId(s, u);
    forall v | v in s.users.Values && Matches(v, LiveEmailToken(digest, later)) ensures v.id == u.id {
      assert v.emailVerificationToken == Some(digest);
    }
    UpdateReleases(s, u.id, VERIFIED_PATCH, LiveEmailToken(digest, later));
  }

  // ---- resendVerificationEmail ----

  /**
   * `resendVerificationEmail`: for the signed-in user, if not yet verified,
   * store a fresh verification pair (replacing the earlier one) and queue
   * the email. The update runs detached, so the answer is 200 either way.
   */
  function ResendVerificationEmail(s: Store, prim: Primitives, principal: Principal, bytes: TokenBytes,
                                   now: nat, origin: Origin): (o: Outcome)
    requires Wellformed(s)
    ensures SameAccounts(s, o.store)
  {
    if !principal.Authenticated? then Rejected(s, Fail(401, "Unauthorized!"))
    else match GetUserByUsername(s, principal.username)
      case None => Rejected(s, Fail(404, "User not found"))
      case Some(u) =>
        if u.isEmailVerified then Rejected(s, Fail(409, "Email is already verified!"))
        else ResendWith(s, u.id, GenerateTemporaryToken(prim, bytes, now), origin)
  }

  /** The detached update and email of a resend, once the token exists. */
  function ResendWith(s: Store, id: Id, tok: TemporaryToken, origin: Origin): (o: Outcome)
    requires Wellformed(s)
    ensures SameAccounts(s, o.store)
    ensures o.reply.response == Ok("Verification email sent successfully !") && o.reply.cookie == KeepCookie
  {
    var link := SiteRoot(origin) + "/api/users/verify-email/" + tok.unHashedToken;
    match Update(s, id, AuthController.VerificationPatch(tok))
    case None => Outcome(s, Reply(Ok("Verification email sent successfully !"), KeepCookie, None))
    case Some(s1) =>
      Outcome(s1, Reply(Ok("Verification email sent successfully !"), KeepCookie,
                        Some(AuthController.VerificationMail(s1.users[id], link))))
  }

  /**
   * `resendVerificationEmail` with `generateTemporaryToken` as written
   * (helpers.ts reads the window from a configuration key): when the token
   * step throws, the error reaches the error middleware before the update,
   * so nothing is stored and no email is queued.
   */
  function ResendVerificationEmailAsWritten(s: Store, prim: Primitives, cfg: Config.Settings, principal: Principal,
                                            bytes: TokenBytes, now: nat, origin: Origin): (o: Outcome)
    requires Wellformed(s)
    ensures SameAccounts(s, o.store)
  {
    if !principal.Authenticated? then Rejected(s, Fail(401, "Unauthorized!"))
    else match GetUserByUsername(s, principal.username)
      case None => Rejected(s, Fail(404, "User not found"))
      case Some(u) =>
        if u.isEmailVerified then Rejected(s, Fail(409, "Email is already verified!"))
        else match GenerateTemporaryTokenAsWritten(prim, cfg, bytes, now)
          case None => Rejected(s, Forward(OtherError("Invalid time value", "")))
          case Some(tok) => ResendWith(s, u.id, tok, origin)
  }

  /**
   * Under the configuration the server builds, a resend for the signed-in,
   * unverified user answers 500 with the `RangeError`'s message, stores
   * nothing and sends no email.
   */
  lemma ResendAsWrittenFails(s: Store, prim: Primitives, env: Config.Env, u: User, role: string, bytes: TokenBytes,
                             now: nat, origin: Origin)
    requires Inv(s) && u in s.users.Values && !u.isEmailVerified
    ensures var o := ResendVerificationEmailAsWritten(s, prim, Config.FromEnv(env), Authenticated(u.id, u.username, role),
                                                      bytes, now, origin);
      && o == Rejected(s, Forward(OtherError("Invalid time value", "")))
      && HttpStatus(o.reply.response) == 500
  {
    UniqueLookup(s, u, UsernameIs(u.username));
    TemporaryTokenAsWrittenThrows(prim, env, bytes, now);
  }

  /** With the window configured as 20 minutes, the as-written resend is the modelled one. */
  lemma ResendAsWrittenCorrected(s: Store, prim: Primitives, cfg: Config.Settings, principal: Principal,
                                 bytes: TokenBytes, now: nat, origin: Origin)
    requires Wellformed(s)
    requires cfg.userTemporaryTokenExpiry == Some(TEMPORARY_TOKEN_WINDOW_MS)
    ensures ResendVerificationEmailAsWritten(s, prim, cfg, principal, bytes, now, origin) ==
            ResendVerificationEmail(s, prim, principal, bytes, now, origin)
  {
    TemporaryTokenCorrected(prim, cfg, bytes, now);
  }

  method ResendVerificationEmailHandler(svc: UserStore, prim: Primitives, principal: Principal, bytes: TokenBytes,
                                        now: nat, origin: Origin) returns (reply: Reply)
    requires Wellformed(svc.Snapshot())
    modifies svc
    ensures Outcome(svc.Snapshot(), reply) == ResendVerificationEmail(old(svc.Snapshot()), prim, principal, bytes, now, origin)
  {
    if !principal.Authenticated? {
      return Reply(Fail(401, "Unauthorized!"), KeepCookie, None);
    }
    var user := GetUserByUsername(svc.Snapshot(), principal.username);
    if user.None? {
      return Reply(Fail(404, "User not found"), KeepCookie, None);
    }
    if user.value.isEmailVerified {
      return Reply(Fail(409, "Email is already verified!"), KeepCookie, None);
    }
    var tok := GenerateTemporaryToken(prim, bytes, now);
    var updated := svc.UpdateUser(user.value.id, AuthController.VerificationPatch(tok));
    var mail := None;
    if updated.Some? {
      mail := Some(AuthController.VerificationMail(updated.value, SiteRoot(origin) + "/api/users/verify-email/" + tok.unHashedToken));
    }
    return Reply(Ok("Verification email sent successfully !"), KeepCookie, mail);
  }

  /**
   * A resend for the signed-in, unverified user stores the new token's pair
   * on that user (as registration does) and emails the plain token to the
   * user's address.
   */
  lemma ResendFor(s: Store, prim: Primitives, u: User, role: string, bytes: TokenBytes, now: nat, origin: Origin)
    requires Inv(s) && u in s.users.Values && !u.isEmailVerified
    ensures var o := ResendVerificationEmail(s, prim, Authenticated(u.id, u.username, role), bytes, now, origin);
      var tok := GenerateTemporaryToken(prim, bytes, now);
      && Some(o.store) == Update(s, u.id, AuthController.VerificationPatch(tok))
      && o.reply.response == Ok("Verification email sent successfully !")
      && o.reply.mail == Some(Mail(u.email, "Please verify your email", Greeting(u),
                                   SiteRoot(origin) + "/api/users/verify-email/" + tok.unHashedToken))
  {
    UniqueLookup(s, u, UsernameIs(u.username));
    StoredUnderId(s, u);
  }

  /**
   * After a resend the store still keeps its invariant and the user holds
   * the digest of the emailed token, live until 20 minutes from now.
   */
  lemma ResendStoresToken(s: Store, prim: Primitives, u: User, role: string, bytes: TokenBytes, now: nat, origin: Origin)
    requires Inv(s) && u in s.users.Values && !u.isEmailVerified
    ensures var o := ResendVerificationEmail(s, prim, Authenticated(u.id, u.username, role), bytes, now, origin);
      var tok := GenerateTemporaryToken(prim, bytes, now);
      && Inv(o.store)
      && o.store.users[u.id].emailVerificationToken == Some(CreateHashToken(prim, tok.unHashedToken))
      && o.store.users[u.id].emailVerificationExpiry == Some(now + 1_200_000)
  {
    ResendFor(s, prim, u, role, bytes, now, origin);
    StoredUnderId(s, u);
    UpdateKeepsInv(s, u.id, AuthController.VerificationPatch(GenerateTemporaryToken(prim, bytes, now)));
  }

  /**
   * After a resend, a token whose digest differs from the new one and that
   * only this user held no longer verifies.
   */
  lemma ResendReplacesToken(s: Store, prim: Primitives, u: User, role: string, bytes: TokenBytes, now: nat,
                            origin: Origin, oldDigest: string)
    requires Inv(s) && u in s.users.Values && !u.isEmailVerified
    requires oldDigest != CreateHashToken(prim, GenerateTemporaryToken(prim, bytes, now).unHashedToken)
    requires forall v :: v in s.users.Values && v.emailVerificationToken == Some(oldDigest) ==> v.id == u.id
    ensures var o := ResendVerificationEmail(s, prim, Authenticated(u.id, u.username, role), bytes, now, origin);
      Wellformed(o.store) && VerifyEmailToken(o.store, oldDigest, now).None?
  {
    var q := LiveEmailToken(oldDigest, now);
    var p := AuthController.VerificationPatch(GenerateTemporaryToken(prim, bytes, now));
    StoredUnderId(s, u);
    forall v | v in s.users.Values && Matches(v, q) ensures v.id == u.id { }
    UpdateReleases(s, u.id, p, q);
    ResendFor(s, prim, u, role, bytes, now, origin);
  }

  /** Refusals of a resend (anonymous, unknown, already verified) change nothing and send no email. */
  lemma ResendRefusals(s: Store, prim: Primitives, principal: Principal, bytes: TokenBytes, now: nat, origin: Origin)
    requires Inv(s)
    ensures var o := ResendVerificationEmail(s, prim, principal, bytes, now, origin);
      && (principal.Anonymous? ==> o == Rejected(s, Fail(401, "Unauthorized!")))
      && (principal.Authenticated? && GetUserByUsername(s, principal.username).None? ==>
            o == Rejected(s, Fail(404, "User not found")))
      && (forall u :: (u in s.users.Values && principal.Authenticated? && u.username == principal.username &&
            u.isEmailVerified) ==> o == Rejected(s, Fail(409, "Email is already verified!")))
  {
    forall u | u in s.users.Values && principal.Authenticated? && u.username == principal.username && u.isEmailVerified
      ensures ResendVerificationEmail(s, prim, principal, bytes, now, origin) == Rejected(s, Fail(409, "Email is already verified!"))
    {
      UniqueLookup(s, u, UsernameIs(u.username));
    }
  }

  // ---- forgotPassword ----

  /** The update that stores a reset pair. */
  function ResetRequestPatch(t: TemporaryToken): (p: Patch)
    ensures KeepsPairs(p)
  {
    Patch(resetPasswordToken := Some(Some(t.hashedToken)), resetPasswordExpiry := Some(Some(t.tokenExpiry)))
  }

  /**
   * `forgotPassword`: for a known email, store a fresh reset pair and queue
   * an email whose link is the configured redirect URL (printed "undefined"
   * when unset) followed by `/` and the plain token.
   */
  function ForgotPassword(s: Store, prim: Primitives, cfg: Config.Settings, email: string,
                          bytes: TokenBytes, now: nat): (o: Outcome)
    requires Wellformed(s)
    ensures SameAccounts(s, o.store)
  {
    match GetUserByEmail(s, email)
    case None => Rejected(s, Fail(404, "User not found with this email address !"))
    case Some(u) => ForgotWith(s, cfg, u.id, GenerateTemporaryToken(prim, bytes, now))
  }

  /** The detached update and email of a reset request, once the token exists. */
  function ForgotWith(s: Store, cfg: Config.Settings, id: Id, tok: TemporaryToken): (o: Outcome)
    requires Wellformed(s)
    ensures SameAccounts(s, o.store)
    ensures o.reply.response == Ok("Password reset email sent successfully !") && o.reply.cookie == KeepCookie
  {
    var link := Interpolate(cfg.forgotPasswordRedirectUrl) + "/" + tok.unHashedToken;
    match Update(s, id, ResetRequestPatch(tok))
    case None => Outcome(s, Reply(Ok("Password reset email sent successfully !"), KeepCookie, None))
    case Some(s1) =>
      var v := s1.users[id];
      Outcome(s1, Reply(Ok("Password reset email sent successfully !"), KeepCookie,
                        Some(Mail(v.email, "Reset your password", Greeting(v), link))))
  }

  /**
   * `forgotPassword` with `generateTemporaryToken` as written: when the token
   * step throws, nothing is stored and no email is queued.
   */
  function ForgotPasswordAsWritten(s: Store, prim: Primitives, cfg: Config.Settings, email: string,
                                   bytes: TokenBytes, now: nat): (o: Outcome)
    requires Wellformed(s)
    ensures SameAccounts(s, o.store)
  {
    match GetUserByEmail(s, email)
    case None => Rejected(s, Fail(404, "User not found with this email address !"))
    case Some(u) =>
      match GenerateTemporaryTokenAsWritten(prim, cfg, bytes, now)
      case None => Rejected(s, Forward(OtherError("Invalid time value", "")))
      case Some(tok) => ForgotWith(s, cfg, u.id, tok)
  }

  /**
   * Under the configuration the server builds, a reset request for a known
   * email answers 500, stores nothing and sends no email.
   */
  lemma ForgotPasswordAsWrittenFails(s: Store, prim: Primitives, env: Config.Env, u: User, bytes: TokenBytes, now: nat)
    requires Inv(s) && u in s.users.Values
    ensures var o := ForgotPasswordAsWritten(s, prim, Config.FromEnv(env), u.email, bytes, now);
      && o == Rejected(s, Forward(OtherError("Invalid time value", "")))
      && HttpStatus(o.reply.response) == 500
  {
    UniqueLookup(s, u, EmailIs(u.email));
    TemporaryTokenAsWrittenThrows(prim, env, bytes, now);
  }

  /** With the window configured as 20 minutes, the as-written reset request is the modelled one. */
  lemma ForgotPasswordAsWrittenCorrected(s: Store, prim: Primitives, cfg: Config.Settings, email: string,
                                         bytes: TokenBytes, now: nat)
    requires Wellformed(s)
    requires cfg.userTemporaryTokenExpiry == Some(TEMPORARY_TOKEN_WINDOW_MS)
    ensures ForgotPasswordAsWritten(s, prim, cfg, email, bytes, now) == ForgotPassword(s, prim, cfg, email, bytes, now)
  {
    TemporaryTokenCorrected(prim, cfg, bytes, now);
  }

  method ForgotPasswordHandler(svc: UserStore, prim: Primitives, cfg: Config.Settings, email: string,
                               bytes: TokenBytes, now: nat) returns (reply: Reply)
    requires Wellformed(svc.Snapshot())
    modifies svc
    ensures Outcome(svc.Snapshot(), reply) == ForgotPassword(old(svc.Snapshot()), prim, cfg, email, bytes, now)
  {
    var user := GetUserByEmail(svc.Snapshot(), email);
    if user.None? {
      return Reply(Fail(404, "User not found with this email address !"), KeepCookie, None);
    }
    var tok := GenerateTemporaryToken(prim, bytes, now);
    var updated := svc.UpdateUser(user.value.id, ResetRequestPatch(tok));
    var mail := None;
    if updated.Some? {
      mail := Some(Mail(updated.value.email, "Reset your password", Greeting(updated.value),
                        Interpolate(cfg.forgotPasswordRedirectUrl) + "/" + tok.unHashedToken));
    }
    return Reply(Ok("Password reset email sent successfully !"), KeepCookie, mail);
  }

  /** An unknown email is refused with 404 and changes nothing. */
  lemma ForgotPasswordUnknown(s: Store, prim: Primitives, cfg: Config.Settings, email: string,
                              bytes: TokenBytes, now: nat)
    requires Wellformed(s)
    requires forall u :: u in s.users.Values ==> u.email != email
    ensures ForgotPassword(s, prim, cfg, email, bytes, now) == Rejected(s, Fail(404, "User not found with this email address !"))
  {
  }

  /**
   * A known email gets a reset pair whose digest is that of the emailed
   * token, live for 20 minutes; nothing else about that user, and no other
   * user, changes, and the store keeps its invariant.
   */
  lemma ForgotPasswordOutcome(s: Store, prim: Primitives, cfg: Config.Settings, u: User,
                              bytes: TokenBytes, now: nat)
    requires Inv(s) && u in s.users.Values
    ensures var o := ForgotPassword(s, prim, cfg, u.email, bytes, now);
      var tok := GenerateTemporaryToken(prim, bytes, now);
      && Inv(o.store)
      && HttpStatus(o.reply.response) == 200
      && o.store.users[u.id] == u.(resetPasswordToken := Some(CreateHashToken(prim, tok.unHashedToken)),
                                   resetPasswordExpiry := Some(now + 1_200_000))
      && (forall other :: other in s.users && other != u.id ==> o.store.users[other] == s.users[other])
      && o.reply.mail == Some(Mail(u.email, "Reset your password", Greeting(u),
                                   Interpolate(cfg.forgotPasswordRedirectUrl) + "/" + tok.unHashedToken))
  {
    UniqueLookup(s, u, EmailIs(u.email));
    StoredUnderId(s, u);
    UpdateKeepsInv(s, u.id, ResetRequestPatch(GenerateTemporaryToken(prim, bytes, now)));
  }

  // ---- resetPassword ----

  /** The update that sets a new password hash and spends the reset pair. */
  function ResetPatch(prim: Primitives, newPassword: string, salt: string): (p: Patch)
    ensures KeepsPairs(p)
  {
    Patch(password := Some(prim.bcryptHash(newPassword, salt)), resetPasswordToken := Some(None),
          resetPasswordExpiry := Some(None))
  }

  /**
   * `resetPassword`: the token from the path is hashed and looked up among
   * unexpired reset pairs; the holder's password becomes the new one's hash
   * and the pair is cleared.
   */
  function ResetPassword(s: Store, prim: Primitives, token: Option<string>, newPassword: string,
                         salt: string, now: nat): (o: Outcome)
    requires Wellformed(s)
    ensures SameAccounts(s, o.store)
  {
    if !Truthy(token) then Rejected(s, Fail(400, "Password reset token is missing"))
    else match VerifyPasswordResetToken(s, CreateHashToken(prim, token.value), now)
      case None => Rejected(s, Fail(489, "Invalid verification token"))
      case Some(u) =>
        match Update(s, u.id, ResetPatch(prim, newPassword, salt))
        case None => Rejected(s, UPDATE_NOT_FOUND)
        case Some(s1) => Outcome(s1, Reply(Ok("Password reset successfully !"), KeepCookie, None))
  }

  method ResetPasswordHandler(svc: UserStore, prim: Primitives, token: Option<string>, newPassword: string,
                              salt: string, now: nat) returns (reply: Reply)
    requires Wellformed(svc.Snapshot())
    modifies svc
    ensures Outcome(svc.Snapshot(), reply) == ResetPassword(old(svc.Snapshot()), prim, token, newPassword, salt, now)
  {
    if !Truthy(token) {
      return Reply(Fail(400, "Password reset token is missing"), KeepCookie, None);
    }
    var hashedToken := CreateHashToken(prim, token.value);
    var user := VerifyPasswordResetToken(svc.Snapshot(), hashedToken, now);
    if user.None? {
      return Reply(Fail(489, "Invalid verification token"), KeepCookie, None);
    }
    var updated := svc.UpdateUser(user.value.id, ResetPatch(prim, newPassword, salt));
    if updated.None? {
      return Reply(UPDATE_NOT_FOUND, KeepCookie, None);
    }
    return Reply(Ok("Password reset successfully !"), KeepCookie, None);
  }

  /**
   * A reset with a live token sets the holder's password hash from the new
   * password and clears the pair, and changes no one else; missing or
   * unknown tokens change nothing.
   */
  lemma ResetPasswordOutcome(s: Store, prim: Primitives, token: string, newPassword: string, salt: string, now: nat)
    requires Inv(s)
    ensures var o := ResetPassword(s, prim, Some(token), newPassword, salt, now);
      && Inv(o.store)
      && (token == "" ==> o == Rejected(s, Fail(400, "Password reset token is missing")))
      && (token != "" && VerifyPasswordResetToken(s, CreateHashToken(prim, token), now).None? ==>
            o == Rejected(s, Fail(489, "Invalid verification token")))
      && (token != "" && VerifyPasswordResetToken(s, CreateHashToken(prim, token), now).Some? ==>
            var id := VerifyPasswordResetToken(s, CreateHashToken(prim, token), now).value.id;
            && HttpStatus(o.reply.response) == 200
            && o.store.users[id] == s.users[id].(password := prim.bcryptHash(newPassword, salt),
                                                 resetPasswordToken := None, resetPasswordExpiry := None)
            && (forall other :: other in s.users && other != id ==> o.store.users[other] == s.users[other]))
  {
    var digest := CreateHashToken(prim, token);
    if token != "" && VerifyPasswordResetToken(s, digest, now).Some? {
      var u := VerifyPasswordResetToken(s, digest, now).value;
      StoredUnderId(s, u);
      UpdateKeepsInv(s, u.id, ResetPatch(prim, newPassword, salt));
    }
  }

  /**
   * A live reset token whose digest only this user holds resets that user's
   * password: the answer is 200, the password is the new one's hash and the
   * reset pair is cleared.
   */
  lemma ResetPasswordSucceeds(s: Store, prim: Primitives, token: string, newPassword: string, salt: string,
                              now: nat, u: User)
    requires Inv(s) && u in s.users.Values && token != ""
    requires u.resetPasswordToken == Some(CreateHashToken(prim, token))
    requires u.resetPasswordExpiry.Some? && u.resetPasswordExpiry.value >= now
    requires forall v :: v in s.users.Values && v.id != u.id ==> v.resetPasswordToken != Some(CreateHashToken(prim, token))
    ensures var o := ResetPassword(s, prim, Some(token), newPassword, salt, now);
      && Inv(o.store) && HttpStatus(o.reply.response) == 200
      && u.id in o.store.users && o.store.users[u.id].password == prim.bcryptHash(newPassword, salt)
      && o.store.users[u.id].resetPasswordToken.None? && o.store.users[u.id].resetPasswordExpiry.None?
  {
    var q := LiveResetToken(CreateHashToken(prim, token), now);
    StoredUnderId(s, u);
    forall w | w in s.users.Values && Matches(w, q) ensures w == u {
      var k :| k in s.users && s.users[k] == w;
    }
    FindTheOnly(s, q, u);
    ResetPasswordOutcome(s, prim, token, newPassword, salt, now);
  }

  /**
   * A reset link works once: when one user held the token's digest, the
   * same token is refused with 489 afterwards, at any later time.
   */
  lemma ResetPasswordOnce(s: Store, prim: Primitives, token: string, newPassword: string, salt: string,
                          now: nat, later: nat, another: string)
    requires Inv(s)
    requires forall a, b :: (a in s.users.Values && b in s.users.Values &&
      a.resetPasswordToken == Some(CreateHashToken(prim, token)) &&
      b.resetPasswordToken == Some(CreateHashToken(prim, token))) ==> a == b
    requires ResetPassword(s, prim, Some(token), newPassword, salt, now).reply.response.Json?
    ensures var o := ResetPassword(s, prim, Some(token), newPassword, salt, now);
      Wellformed(o.store) && ResetPassword(o.store, prim, Some(token), another, salt, later) ==
        Rejected(o.store, Fail(489, "Invalid verification token"))
  {
    var digest := CreateHashToken(prim, token);
    var u := VerifyPasswordResetToken(s, digest, now).value;
    var p := ResetPatch(prim, newPassword, salt);
    StoredUnderId(s, u);
    forall v | v in s.users.Values && Matches(v, LiveResetToken(digest, later)) ensures v.id == u.id {
      assert v.resetPasswordToken == Some(digest);
    }
    UpdateReleases(s, u.id, p, LiveResetToken(digest, later));
    var t := Update(s, u.id, p).value;
    assert ResetPassword(s, prim, Some(token), newPassword, salt, now).store == t;
    assert VerifyPasswordResetToken(t, digest, later).None?;
  }

  // ---- changePassword ----

  /**
   * `changePassword`: the signed-in user's password is replaced by the new
   * one's hash when the old password matches the stored hash.
   */
  function ChangePassword(s: Store, prim: Primitives, principal: Principal, oldPassword: string,
                          newPassword: string, salt: string): (o: Outcome)
    requires Wellformed(s)
    ensures SameAccounts(s, o.store)
  {
    if !principal.Authenticated? then Rejected(s, Fail(401, "Unauthorized!"))
    else match GetUserByUsername(s, principal.username)
      case None => Rejected(s, Fail(404, "User not found"))
      case Some(u) =>
        if !prim.bcryptCompare(oldPassword, u.password) then Rejected(s, Fail(400, "Old password is incorrect"))
        else match Update(s, u.id, Patch(password := Some(prim.bcryptHash(newPassword, salt))))
          case None => Rejected(s, UPDATE_NOT_FOUND)
          case Some(s1) => Outcome(s1, Reply(Ok("Password changed successfully !"), KeepCookie, None))
  }

  method ChangePasswordHandler(svc: UserStore, prim: Primitives, principal: Principal, oldPassword: string,
                               newPassword: string, salt: string) returns (reply: Reply)
    requires Wellformed(svc.Snapshot())
    modifies svc
    ensures Outcome(svc.Snapshot(), reply) == ChangePassword(old(svc.Snapshot()), prim, principal, oldPassword, newPassword, salt)
  {
    if !principal.Authenticated? {
      return Reply(Fail(401, "Unauthorized!"), KeepCookie, None);
    }
    var user := GetUserByUsername(svc.Snapshot(), principal.username);
    if user.None? {
      return Reply(Fail(404, "User not found"), KeepCookie, None);
    }
    if !prim.bcryptCompare(oldPassword, user.value.password) {
      return Reply(Fail(400, "Old password is incorrect"), KeepCookie, None);
    }
    var updated := svc.UpdateUser(user.value.id, Patch(password := Some(prim.bcryptHash(newPassword, salt))));
    if updated.None? {
      return Reply(UPDATE_NOT_FOUND, KeepCookie, None);
    }
    return Reply(Ok("Password changed successfully !"), KeepCookie, None);
  }

  /**
   * A password change changes nothing unless the signed-in user exists and
   * gave the right old password; then it changes only that user's password
   * hash.
   */
  lemma ChangePasswordOutcome(s: Store, prim: Primitives, u: User, oldPassword: string, newPassword: string,
                              salt: string, role: string)
    requires Inv(s) && u in s.users.Values
    ensures var o := ChangePassword(s, prim, Authenticated(u.id, u.username, role), oldPassword, newPassword, salt);
      && Inv(o.store)
      && (!prim.bcryptCompare(oldPassword, u.password) ==> o == Rejected(s, Fail(400, "Old password is incorrect")))
      && (prim.bcryptCompare(oldPassword, u.password) ==>
            && HttpStatus(o.reply.response) == 200
            && o.store.users == s.users[u.id := u.(password := prim.bcryptHash(newPassword, salt))]
            && o.store.order == s.order)
  {
    UniqueLookup(s, u, UsernameIs(u.username));
    UpdateKeepsInv(s, u.id, Patch(password := Some(prim.bcryptHash(newPassword, salt))));
  }

  /** Anonymous requests and unknown usernames are refused without a change. */
  lemma ChangePasswordRefusals(s: Store, prim: Primitives, principal: Principal, oldPassword: string,
                               newPassword: string, salt: string)
    requires Wellformed(s)
    ensures var o := ChangePassword(s, prim, principal, oldPassword, newPassword, salt);
      && (principal.Anonymous? ==> o == Rejected(s, Fail(401, "Unauthorized!")))
      && (principal.Authenticated? && (forall u :: u in s.users.Values ==> u.username != principal.username) ==>
            o == Rejected(s, Fail(404, "User not found")))
  {
  }
}
