/**
 * The routes (server/src/routes/v1/auth.routes.ts, user.routes.ts,
 * admin.routes.ts): each handler behind the middleware chain its route
 * declares. `validate(schema)` checks the body, but as written it calls
 * `next()` without putting zod's parsed output back on the request, so the
 * handlers read the body as it came in and the schemas' `trim()` and
 * `toLowerCase()` never take effect. The `AsWritten` routes show that; the
 * other routes hand the handlers the parsed values, as the schemas intend,
 * and are the ones the rest of the model uses.
 */
module Routes {
  import opened Prelude
  import opened Schemas
  import opened Validators
  import opened ValidateMiddleware
  import opened ErrorMiddleware
  import opened Helpers
  import Config
  import opened UserService
  import opened Http
  import AuthController
  import UserController
  import AdminController
  import opened AuthMiddleware

  /** What a request sees of the world besides the store: library calls, settings, clock, host. */
  datatype Context = Context(prim: Primitives, cfg: Config.Settings, now: nat, origin: Origin,
                             isEmail: string -> bool)

  /** The values a registration draws: the bcrypt salt, the database id, the token's random bytes. */
  datatype Fresh = Fresh(salt: string, newId: Id, bytes: TokenBytes)

  /** `validate(schema)` refusing a body: the 422 error is forwarded and nothing changes. */
  function Invalid(s: Store, e: ResponseHandler.ApiError): (o: Outcome)
    ensures o.store == s && o.reply.response == Forward(Api(e))
  {
    Rejected(s, Forward(Api(e)))
  }

  // ---- POST /api/v1/auth/register ----

  /**
   * `validate(RegisterSchema)` then `registerUser` as written: on the raw
   * body, with the token generator that reads the window from the settings.
   */
  function RegisterRouteAsWritten(s: Store, ctx: Context, f: Fresh, body: Body): (o: Outcome)
    requires Wellformed(s) && f.newId !in s.users
    ensures !RegisterBodyValid(body, ctx.isEmail) ==> o.store == s && HttpStatus(o.reply.response) == 422
    ensures RegisterBodyValid(body, ctx.isEmail) ==>
      o == AuthController.RegisterAsWritten(s, ctx.prim, ctx.cfg, f.salt, f.newId, f.bytes, ctx.now, ctx.origin,
                                            body["firstName"], body["lastName"], body["username"], body["email"],
                                            body["password"])
  {
    RegisterSchemaExact(body, ctx.isEmail);
    match Validate(REGISTER_SCHEMA, body, ctx.isEmail)
    case Some(e) => Invalid(s, e)
    case None =>
      RegisterSchemaExact(body, ctx.isEmail);
      AuthController.RegisterAsWritten(s, ctx.prim, ctx.cfg, f.salt, f.newId, f.bytes, ctx.now, ctx.origin,
                                       body["firstName"], body["lastName"], body["username"], body["email"],
                                       body["password"])
  }

  /** `validate(RegisterSchema)` then `registerUser` on the schema's output. */
  function RegisterRoute(s: Store, ctx: Context, f: Fresh, body: Body): (o: Outcome)
    requires Wellformed(s) && f.newId !in s.users
    ensures !RegisterBodyValid(body, ctx.isEmail) ==> o.store == s && HttpStatus(o.reply.response) == 422
    ensures RegisterBodyValid(body, ctx.isEmail) ==>
      o == AuthController.Register(s, ctx.prim, f.salt, f.newId, f.bytes, ctx.now, ctx.origin,
                                   Trim(body["firstName"]), Trim(body["lastName"]), NormalizeUsername(body["username"]),
                                   Trim(body["email"]), Trim(body["password"]))
  {
    RegisterSchemaExact(body, ctx.isEmail);
    match Validate(REGISTER_SCHEMA, body, ctx.isEmail)
    case Some(e) => Invalid(s, e)
    case None =>
      RegisterSchemaExact(body, ctx.isEmail);
      var data := SafeParse(REGISTER_SCHEMA, body, ctx.isEmail).data;
      AuthController.Register(s, ctx.prim, f.salt, f.newId, f.bytes, ctx.now, ctx.origin, data["firstName"],
                              data["lastName"], data["username"], data["email"], data["password"])
  }

  // ---- POST /api/v1/auth/login ----

  /** `validate(LoginSchema)` then `loginUser` on the raw body. */
  function LoginRouteAsWritten(s: Store, ctx: Context, body: Body): (o: Outcome)
    requires Wellformed(s)
    ensures SameAccounts(s, o.store)
    ensures !LoginBodyValid(body) ==> o.store == s && HttpStatus(o.reply.response) == 422
    ensures LoginBodyValid(body) ==>
      o == AuthController.Login(s, ctx.prim, ctx.cfg, ctx.now, body["username"], body["password"])
  {
    LoginSchemaExact(body, ctx.isEmail);
    match Validate(LOGIN_SCHEMA, body, ctx.isEmail)
    case Some(e) => Invalid(s, e)
    case None =>
      LoginSchemaExact(body, ctx.isEmail);
      AuthController.Login(s, ctx.prim, ctx.cfg, ctx.now, body["username"], body["password"])
  }

  /** `validate(LoginSchema)` then `loginUser` on the schema's output. */
  function LoginRoute(s: Store, ctx: Context, body: Body): (o: Outcome)
    requires Wellformed(s)
    ensures SameAccounts(s, o.store)
    ensures !LoginBodyValid(body) ==> o.store == s && HttpStatus(o.reply.response) == 422
    ensures LoginBodyValid(body) ==>
      o == AuthController.Login(s, ctx.prim, ctx.cfg, ctx.now, NormalizeUsername(body["username"]), Trim(body["password"]))
  {
    LoginSchemaExact(body, ctx.isEmail);
    match Validate(LOGIN_SCHEMA, body, ctx.isEmail)
    case Some(e) => Invalid(s, e)
    case None =>
      LoginSchemaExact(body, ctx.isEmail);
      var data := SafeParse(LOGIN_SCHEMA, body, ctx.isEmail).data;
      AuthController.Login(s, ctx.prim, ctx.cfg, ctx.now, data["username"], data["password"])
  }

  /**
   * With the parsed values, registration stores the normalised username and
   * the trimmed email, and a later login with any spelling of the username
   * that normalises to the same name, and a password whose trimmed form
   * matches, gets past both checks: the answer is 201 unless signing fails.
   */
  lemma RegisteredUserCanLogIn(s: Store, ctx: Context, f: Fresh, b1: Body, b2: Body)
    requires Inv(s) && f.newId !in s.users
    requires RegisterBodyValid(b1, ctx.isEmail) && LoginBodyValid(b2)
    requires forall u :: u in s.users.Values ==>
      u.username != NormalizeUsername(b1["username"]) && u.email != Trim(b1["email"])
    requires NormalizeUsername(b2["username"]) == NormalizeUsername(b1["username"])
    requires ctx.prim.bcryptCompare(Trim(b2["password"]), ctx.prim.bcryptHash(Trim(b1["password"]), f.salt))
    ensures var s1 := RegisterRoute(s, ctx, f, b1).store;
      && Inv(s1)
      && HttpStatus(LoginRoute(s1, ctx, b2).reply.response) in {201, 500}
  {
    RegisterSchemaExact(b1, ctx.isEmail);
    LoginSchemaExact(b2, ctx.isEmail);
    var d1 := SafeParse(REGISTER_SCHEMA, b1, ctx.isEmail).data;
    var d2 := SafeParse(LOGIN_SCHEMA, b2, ctx.isEmail).data;
    AuthController.RegisterCreatesUser(s, ctx.prim, f.salt, f.newId, f.bytes, ctx.now, ctx.origin,
      d1["firstName"], d1["lastName"], d1["username"], d1["email"], d1["password"]);
    AuthController.RegisteredUser(s, ctx.prim, f.salt, f.newId, f.bytes, ctx.now,
      d1["firstName"], d1["lastName"], d1["username"], d1["email"], d1["password"]);
    var s1 := RegisterRoute(s, ctx, f, b1).store;
    var u := s1.users[f.newId];
    assert u in s1.users.Values;
    AuthController.LoginPastChecks(s1, ctx.prim, ctx.cfg, ctx.now, u, d2["password"]);
  }

  /** Both spellings of "Ann" lower-case to "ann". */
  lemma AnnLowers()
    ensures ToLower("Ann") == "ann" && ToLower("ann") == "ann"
  {
    var l := ToLower("Ann");
    assert l[0] == LowerChar('A') == 'a';
    assert l == "ann";
    var m := ToLower("ann");
    assert m == "ann";
  }

  /** The login schema's spelling of "Ann". */
  lemma AnnNormalises()
    ensures NormalizeUsername("Ann") == "ann" && NormalizeUsername("ann") == "ann"
  {
    TrimUnpadded("Ann");
    TrimUnpadded("ann");
    AnnLowers();
  }

  /**
   * As written, under the settings the server builds, the same registration
   * answers 500 yet keeps the account, with the username as typed, so a
   * login with the lower-case spelling the login schema produces is told
   * "User not found!": register "Ann", log in as "ann". With the parsed
   * values the same login gets past both checks.
   */
  lemma CaseMismatchAsWritten(s: Store, ctx: Context, env: Config.Env, f: Fresh, b1: Body, b2: Body)
    requires Inv(s) && f.newId !in s.users && ctx.cfg == Config.FromEnv(env)
    requires RegisterBodyValid(b1, ctx.isEmail) && LoginBodyValid(b2)
    requires b1["username"] == "Ann" && b2["username"] == "ann"
    requires forall u :: u in s.users.Values ==>
      u.username != "Ann" && u.username != "ann" && u.email != b1["email"] && u.email != Trim(b1["email"])
    requires ctx.prim.bcryptCompare(Trim(b2["password"]), ctx.prim.bcryptHash(Trim(b1["password"]), f.salt))
    ensures var o := RegisterRouteAsWritten(s, ctx, f, b1);
      && HttpStatus(o.reply.response) == 500
      && Inv(o.store)
      && LoginRouteAsWritten(o.store, ctx, b2) == Rejected(o.store, Fail(400, "User not found!"))
    ensures Inv(RegisterRoute(s, ctx, f, b1).store) &&
      HttpStatus(LoginRoute(RegisterRoute(s, ctx, f, b1).store, ctx, b2).reply.response) in {201, 500}
  {
    RegisterSchemaExact(b1, ctx.isEmail);
    LoginSchemaExact(b2, ctx.isEmail);
    AuthController.RegisterAsWrittenFails(s, ctx.prim, env, f.salt, f.newId, f.bytes, ctx.now, ctx.origin,
      b1["firstName"], b1["lastName"], b1["username"], b1["email"], b1["password"]);
    SignUpKeepsInv(s, ctx.prim, f.salt, f.newId,
      b1["firstName"], b1["lastName"], b1["username"], b1["email"], b1["password"]);
    var s1 := RegisterRouteAsWritten(s, ctx, f, b1).store;
    assert s1.users == s.users[f.newId := NewUser(ctx.prim, f.salt, f.newId, b1["firstName"], b1["lastName"],
                                                  "Ann", b1["email"], b1["password"], Basic)];
    forall u | u in s1.users.Values ensures u.username != "ann" {
      var id :| id in s1.users && s1.users[id] == u;
      if id != f.newId {
        assert s.users[id] in s.users.Values;
      }
    }
    AnnNormalises();
    RegisteredUserCanLogIn(s, ctx, f, b1, b2);
  }

  // ---- GET /api/v1/auth/logout and /refresh: no middleware ----

  /** A logout clears at most a stored refresh token: it answers 204, or 403 when that update fails. */
  function LogoutRoute(s: Store, cookie: Option<string>): (o: Outcome)
    requires Wellformed(s)
    ensures SameAccounts(s, o.store)
    ensures !Truthy(cookie) ==> o.store == s
    ensures HttpStatus(o.reply.response) in {204, 403} && o.reply.mail.None?
  {
    AuthController.Logout(s, cookie)
  }

  /** A refresh never changes the store and never touches the cookie. */
  function RefreshRoute(s: Store, ctx: Context, cookie: Option<string>): (o: Outcome)
    requires Wellformed(s)
    ensures o.store == s && o.reply.cookie == KeepCookie && o.reply.mail.None?
    ensures !Truthy(cookie) ==> HttpStatus(o.reply.response) == 401
  {
    AuthController.Refresh(s, ctx.prim, ctx.cfg, ctx.now, cookie)
  }

  // ---- /api/v1/users ----

  /** GET `/verify-email/:token`: no middleware. */
  function VerifyEmailRoute(s: Store, ctx: Context, token: Option<string>): (o: Outcome)
    requires Wellformed(s)
    ensures SameAccounts(s, o.store)
    ensures !Truthy(token) ==> o.store == s && HttpStatus(o.reply.response) == 400
  {
    UserController.VerifyEmail(s, ctx.prim, token, ctx.now)
  }

  /** POST `/forgot-password`: `validate(ForgotPasswordSchema)` then `forgotPassword`. */
  function ForgotPasswordRoute(s: Store, ctx: Context, bytes: TokenBytes, body: Body): (o: Outcome)
    requires Wellformed(s)
    ensures SameAccounts(s, o.store)
    ensures var valid := "email" in body && |body["email"]| >= 1 && ctx.isEmail(Trim(body["email"]));
      && (!valid ==> o.store == s && HttpStatus(o.reply.response) == 422)
      && (valid ==> o == UserController.ForgotPassword(s, ctx.prim, ctx.cfg, Trim(body["email"]), bytes, ctx.now))
  {
    ForgotPasswordSchemaExact(body, ctx.isEmail);
    match Validate(FORGOT_PASSWORD_SCHEMA, body, ctx.isEmail)
    case Some(e) => Invalid(s, e)
    case None =>
      ForgotPasswordSchemaExact(body, ctx.isEmail);
      var data := SafeParse(FORGOT_PASSWORD_SCHEMA, body, ctx.isEmail).data;
      UserController.ForgotPassword(s, ctx.prim, ctx.cfg, data["email"], bytes, ctx.now)
  }

  /** POST `/reset-password/:token`: `validate(PasswordResetSchema)` then `resetPassword`. */
  function ResetPasswordRoute(s: Store, ctx: Context, salt: string, token: Option<string>, body: Body): (o: Outcome)
    requires Wellformed(s)
    ensures SameAccounts(s, o.store)
    ensures !PasswordValid(body, "newPassword") ==> o.store == s && HttpStatus(o.reply.response) == 422
    ensures PasswordValid(body, "newPassword") ==>
      o == UserController.ResetPassword(s, ctx.prim, token, Trim(body["newPassword"]), salt, ctx.now)
  {
    PasswordResetSchemaExact(body, ctx.isEmail);
    match Validate(PASSWORD_RESET_SCHEMA, body, ctx.isEmail)
    case Some(e) => Invalid(s, e)
    case None =>
      PasswordResetSchemaExact(body, ctx.isEmail);
      var data := SafeParse(PASSWORD_RESET_SCHEMA, body, ctx.isEmail).data;
      UserController.ResetPassword(s, ctx.prim, token, data["newPassword"], salt, ctx.now)
  }

  /** POST `/resend-verification-email`: `authenticate` then `resendVerificationEmail`. */
  function ResendVerificationRoute(s: Store, ctx: Context, bytes: TokenBytes, header: Option<string>): (o: Outcome)
    requires Wellformed(s)
    ensures SameAccounts(s, o.store)
    ensures var v := Authenticate(ctx.prim, ctx.cfg, header, ctx.now);
      v.Refuse? ==> o == Rejected(s, v.response)
  {
    match Authenticate(ctx.prim, ctx.cfg, header, ctx.now)
    case Refuse(r) => Rejected(s, r)
    case Admit(c) => UserController.ResendVerificationEmail(s, ctx.prim, PrincipalOf(Admit(c)), bytes, ctx.now, ctx.origin)
  }

  /** POST `/change-password`: `authenticate`, `validate(ChangePasswordSchema)`, then `changePassword`. */
  function ChangePasswordRoute(s: Store, ctx: Context, salt: string, header: Option<string>, body: Body): (o: Outcome)
    requires Wellformed(s)
    ensures SameAccounts(s, o.store)
    ensures var v := Authenticate(ctx.prim, ctx.cfg, header, ctx.now);
      && (v.Refuse? ==> o == Rejected(s, v.response))
      && (v.Admit? && !(PasswordValid(body, "oldPassword") && PasswordValid(body, "newPassword")) ==>
            o.store == s && HttpStatus(o.reply.response) == 422)
  {
    ChangePasswordSchemaExact(body, ctx.isEmail);
    match Authenticate(ctx.prim, ctx.cfg, header, ctx.now)
    case Refuse(r) => Rejected(s, r)
    case Admit(c) =>
      match Validate(CHANGE_PASSWORD_SCHEMA, body, ctx.isEmail)
      case Some(e) => Invalid(s, e)
      case None =>
        ChangePasswordSchemaExact(body, ctx.isEmail);
        var data := SafeParse(CHANGE_PASSWORD_SCHEMA, body, ctx.isEmail).data;
        UserController.ChangePassword(s, ctx.prim, PrincipalOf(Admit(c)), data["oldPassword"], data["newPassword"], salt)
  }

  /**
   * Only a request whose bearer token verifies to a complete claim, and whose
   * claimed username has the right password, can change a password; the
   * change touches only that user's password hash.
   */
  lemma ChangePasswordNeedsToken(s: Store, ctx: Context, salt: string, header: Option<string>, body: Body)
    requires Inv(s)
    ensures var o := ChangePasswordRoute(s, ctx, salt, header, body);
      && Inv(o.store)
      && (o.store != s ==>
            && Authenticate(ctx.prim, ctx.cfg, header, ctx.now).Admit?
            && var c := Authenticate(ctx.prim, ctx.cfg, header, ctx.now).user;
               exists u :: u in s.users.Values && Some(u.username) == c.username &&
                 o.store.users == s.users[u.id := u.(password := ctx.prim.bcryptHash(Trim(body["newPassword"]), salt))])
  {
    var v := Authenticate(ctx.prim, ctx.cfg, header, ctx.now);
    ChangePasswordSchemaExact(body, ctx.isEmail);
    if v.Admit? && Validate(CHANGE_PASSWORD_SCHEMA, body, ctx.isEmail).None? {
      var p := PrincipalOf(v);
      var data := SafeParse(CHANGE_PASSWORD_SCHEMA, body, ctx.isEmail).data;
      UserController.ChangePasswordRefusals(s, ctx.prim, p, data["oldPassword"], data["newPassword"], salt);
      if p.Authenticated? && GetUserByUsername(s, p.username).Some? {
        var u := GetUserByUsername(s, p.username).value;
        UserController.ChangePasswordOutcome(s, ctx.prim, u, data["oldPassword"], data["newPassword"], salt, p.role);
      }
    }
  }

  /** As written: `authenticate`, `validate(ChangePasswordSchema)`, then `changePassword` on the raw body. */
  function ChangePasswordRouteAsWritten(s: Store, ctx: Context, salt: string, header: Option<string>, body: Body): (o: Outcome)
    requires Wellformed(s)
    ensures SameAccounts(s, o.store)
    ensures var v := Authenticate(ctx.prim, ctx.cfg, header, ctx.now);
      && (v.Refuse? ==> o == Rejected(s, v.response))
      && (v.Admit? && !(PasswordValid(body, "oldPassword") && PasswordValid(body, "newPassword")) ==>
            o.store == s && HttpStatus(o.reply.response) == 422)
  {
    ChangePasswordSchemaExact(body, ctx.isEmail);
    match Authenticate(ctx.prim, ctx.cfg, header, ctx.now)
    case Refuse(r) => Rejected(s, r)
    case Admit(c) =>
      match Validate(CHANGE_PASSWORD_SCHEMA, body, ctx.isEmail)
      case Some(e) => Invalid(s, e)
      case None =>
        ChangePasswordSchemaExact(body, ctx.isEmail);
        UserController.ChangePassword(s, ctx.prim, PrincipalOf(Admit(c)), body["oldPassword"], body["newPassword"], salt)
  }

  /**
   * As written, the same guard holds, but the old password is compared as
   * typed and the stored hash is that of the new password as typed, padding
   * included.
   */
  lemma ChangePasswordAsWrittenNeedsToken(s: Store, ctx: Context, salt: string, header: Option<string>, body: Body)
    requires Inv(s)
    ensures var o := ChangePasswordRouteAsWritten(s, ctx, salt, header, body);
      && Inv(o.store)
      && (o.store != s ==>
            && Authenticate(ctx.prim, ctx.cfg, header, ctx.now).Admit?
            && var c := Authenticate(ctx.prim, ctx.cfg, header, ctx.now).user;
               exists u :: u in s.users.Values && Some(u.username) == c.username &&
                 ctx.prim.bcryptCompare(body["oldPassword"], u.password) &&
                 o.store.users == s.users[u.id := u.(password := ctx.prim.bcryptHash(body["newPassword"], salt))])
  {
    var v := Authenticate(ctx.prim, ctx.cfg, header, ctx.now);
    ChangePasswordSchemaExact(body, ctx.isEmail);
    if v.Admit? && Validate(CHANGE_PASSWORD_SCHEMA, body, ctx.isEmail).None? {
      var p := PrincipalOf(v);
      UserController.ChangePasswordRefusals(s, ctx.prim, p, body["oldPassword"], body["newPassword"], salt);
      if p.Authenticated? && GetUserByUsername(s, p.username).Some? {
        var u := GetUserByUsername(s, p.username).value;
        UserController.ChangePasswordOutcome(s, ctx.prim, u, body["oldPassword"], body["newPassword"], salt, p.role);
      }
    }
  }

  /** When neither password carries padding, the route as written and with the parsed values agree. */
  lemma ChangePasswordAsWrittenAgrees(s: Store, ctx: Context, salt: string, header: Option<string>, body: Body)
    requires Wellformed(s)
    requires forall k :: k in body ==> Trim(body[k]) == body[k]
    ensures ChangePasswordRouteAsWritten(s, ctx, salt, header, body) == ChangePasswordRoute(s, ctx, salt, header, body)
  {
    ChangePasswordSchemaExact(body, ctx.isEmail);
  }

  // ---- /api/v1/admin ----

  /** GET `/users`: `authenticate`, `adminOnly`, then `getAllUsers`. */
  function ListUsersRoute(s: Store, ctx: Context, header: Option<string>): (o: Outcome)
    requires Wellformed(s)
    ensures o.store == s
  {
    match Authenticate(ctx.prim, ctx.cfg, header, ctx.now)
    case Refuse(r) => Rejected(s, r)
    case Admit(c) =>
      match AdminOnly(s, PrincipalOf(Admit(c)))
      case Stop(r) => Rejected(s, r)
      case Pass => AdminController.GetAllUsers(s)
  }

  /** PATCH `/assign-role`: `authenticate`, `adminOnly`, `validate(ChangeRoleSchema)`, then `changeUserRole`. */
  function AssignRoleRoute(s: Store, ctx: Context, header: Option<string>, body: Body): (o: Outcome)
    requires Wellformed(s)
    ensures SameAccounts(s, o.store)
    ensures var v := Authenticate(ctx.prim, ctx.cfg, header, ctx.now);
      && (v.Refuse? ==> o == Rejected(s, v.response))
      && (v.Admit? && AdminOnly(s, PrincipalOf(v)).Stop? ==> o == Rejected(s, AdminOnly(s, PrincipalOf(v)).response))
  {
    match Authenticate(ctx.prim, ctx.cfg, header, ctx.now)
    case Refuse(r) => Rejected(s, r)
    case Admit(c) =>
      match AdminOnly(s, PrincipalOf(Admit(c)))
      case Stop(r) => Rejected(s, r)
      case Pass =>
        match Validate(CHANGE_ROLE_SCHEMA, body, ctx.isEmail)
        case Some(e) => Invalid(s, e)
        case None =>
          ChangeRoleSchemaExact(body, ctx.isEmail);
          var data := SafeParse(CHANGE_ROLE_SCHEMA, body, ctx.isEmail).data;
          AdminController.ChangeUserRole(s, data["userId"], ParseRole(data["role"]).value)
  }

  /**
   * Only a bearer of an access token claiming the role "admin", for a
   * username that exists, can change a role, and then only the role of the
   * user whose id is the trimmed `userId`, to the role named in the body.
   */
  lemma AssignRoleNeedsAdminClaim(s: Store, ctx: Context, header: Option<string>, body: Body)
    requires Inv(s)
    ensures var o := AssignRoleRoute(s, ctx, header, body);
      && Inv(o.store)
      && (o.store != s ==>
            && Authenticate(ctx.prim, ctx.cfg, header, ctx.now).Admit?
            && Authenticate(ctx.prim, ctx.cfg, header, ctx.now).user.role == Some("admin")
            && "userId" in body && "role" in body && ParseRole(body["role"]).Some?
            && var id := Trim(body["userId"]);
               id in s.users && o.store.users == s.users[id := s.users[id].(role := ParseRole(body["role"]).value)])
  {
    var v := Authenticate(ctx.prim, ctx.cfg, header, ctx.now);
    if v.Admit? && AdminOnly(s, PrincipalOf(v)).Pass? && Validate(CHANGE_ROLE_SCHEMA, body, ctx.isEmail).None? {
      AdminOnlyPasses(s, PrincipalOf(v));
      ChangeRoleSchemaExact(body, ctx.isEmail);
      var data := SafeParse(CHANGE_ROLE_SCHEMA, body, ctx.isEmail).data;
      var role := ParseRole(data["role"]).value;
      assert AssignRoleRoute(s, ctx, header, body) == AdminController.ChangeUserRole(s, data["userId"], role);
      AdminController.ChangeUserRoleOutcome(s, data["userId"], role);
    }
  }

  /** As written: `authenticate`, `adminOnly`, `validate(ChangeRoleSchema)`, then `changeUserRole` on the raw body. */
  function AssignRoleRouteAsWritten(s: Store, ctx: Context, header: Option<string>, body: Body): (o: Outcome)
    requires Wellformed(s)
    ensures SameAccounts(s, o.store)
    ensures var v := Authenticate(ctx.prim, ctx.cfg, header, ctx.now);
      && (v.Refuse? ==> o == Rejected(s, v.response))
      && (v.Admit? && AdminOnly(s, PrincipalOf(v)).Stop? ==> o == Rejected(s, AdminOnly(s, PrincipalOf(v)).response))
  {
    match Authenticate(ctx.prim, ctx.cfg, header, ctx.now)
    case Refuse(r) => Rejected(s, r)
    case Admit(c) =>
      match AdminOnly(s, PrincipalOf(Admit(c)))
      case Stop(r) => Rejected(s, r)
      case Pass =>
        match Validate(CHANGE_ROLE_SCHEMA, body, ctx.isEmail)
        case Some(e) => Invalid(s, e)
        case None =>
          ChangeRoleSchemaExact(body, ctx.isEmail);
          AdminController.ChangeUserRole(s, body["userId"], ParseRole(body["role"]).value)
  }

  /**
   * As written, the same guard holds, but the user changed is the one whose
   * id is `userId` as typed.
   */
  lemma AssignRoleAsWrittenNeedsAdminClaim(s: Store, ctx: Context, header: Option<string>, body: Body)
    requires Inv(s)
    ensures var o := AssignRoleRouteAsWritten(s, ctx, header, body);
      && Inv(o.store)
      && (o.store != s ==>
            && Authenticate(ctx.prim, ctx.cfg, header, ctx.now).Admit?
            && Authenticate(ctx.prim, ctx.cfg, header, ctx.now).user.role == Some("admin")
            && "userId" in body && "role" in body && ParseRole(body["role"]).Some?
            && var id := body["userId"];
               id in s.users && o.store.users == s.users[id := s.users[id].(role := ParseRole(body["role"]).value)])
  {
    var v := Authenticate(ctx.prim, ctx.cfg, header, ctx.now);
    if v.Admit? && AdminOnly(s, PrincipalOf(v)).Pass? && Validate(CHANGE_ROLE_SCHEMA, body, ctx.isEmail).None? {
      AdminOnlyPasses(s, PrincipalOf(v));
      ChangeRoleSchemaExact(body, ctx.isEmail);
      var role := ParseRole(body["role"]).value;
      assert AssignRoleRouteAsWritten(s, ctx, header, body) == AdminController.ChangeUserRole(s, body["userId"], role);
      AdminController.ChangeUserRoleOutcome(s, body["userId"], role);
    }
  }

  /**
   * A `userId` sent with padding around a stored id: as written the admin is
   * told "User not found!" and nothing changes, while with the parsed values
   * the role of the user with the trimmed id changes.
   */
  lemma PaddedUserIdAsWritten(s: Store, ctx: Context, header: Option<string>, body: Body)
    requires Inv(s)
    requires Authenticate(ctx.prim, ctx.cfg, header, ctx.now).Admit?
    requires AdminOnly(s, PrincipalOf(Authenticate(ctx.prim, ctx.cfg, header, ctx.now))).Pass?
    requires "userId" in body && "role" in body && body["role"] in {"basic", "admin"}
    requires |Trim(body["userId"])| >= 1 && Trim(body["userId"]) in s.users && body["userId"] !in s.users
    ensures AssignRoleRouteAsWritten(s, ctx, header, body) == Rejected(s, Fail(404, "User not found!"))
    ensures var id := Trim(body["userId"]);
      AssignRoleRoute(s, ctx, header, body).store.users == s.users[id := s.users[id].(role := ParseRole(body["role"]).value)]
  {
    var v := Authenticate(ctx.prim, ctx.cfg, header, ctx.now);
    ChangeRoleSchemaExact(body, ctx.isEmail);
    var role := ParseRole(body["role"]).value;
    assert AssignRoleRouteAsWritten(s, ctx, header, body) == AdminController.ChangeUserRole(s, body["userId"], role);
    AdminController.ChangeUserRoleOutcome(s, body["userId"], role);
    AssignRoleNeedsAdminClaim(s, ctx, header, body);
    var data := SafeParse(CHANGE_ROLE_SCHEMA, body, ctx.isEmail).data;
    assert AssignRoleRoute(s, ctx, header, body) == AdminController.ChangeUserRole(s, data["userId"], role);
    AdminController.ChangeUserRoleOutcome(s, data["userId"], role);
  }

  /** Listing users answers 200 only to a bearer of an access token claiming the role "admin". */
  lemma ListUsersNeedsAdminClaim(s: Store, ctx: Context, header: Option<string>)
    requires Wellformed(s)
    ensures HttpStatus(ListUsersRoute(s, ctx, header).reply.response) == 200 ==>
      && Authenticate(ctx.prim, ctx.cfg, header, ctx.now).Admit?
      && Authenticate(ctx.prim, ctx.cfg, header, ctx.now).user.role == Some("admin")
  {
    var v := Authenticate(ctx.prim, ctx.cfg, header, ctx.now);
    AuthenticateAdmits(ctx.prim, ctx.cfg, header, ctx.now);
    if v.Admit? {
      AdminOnlyPasses(s, PrincipalOf(v));
    }
  }
}
