/**
 * The two guards in front of the private routes
 * (server/src/middlewares/auth.middlewares.ts): `authenticate` admits a
 * request whose bearer token is a live access token carrying a complete
 * `user` claim, and `adminOnly` admits a signed-in request whose claimed
 * role is "admin".
 */
module AuthMiddleware {
  import opened Prelude
  import opened ErrorMiddleware
  import opened Helpers
  import Config
  import opened UserService
  import opened Http

  const BEARER := "Bearer "

  predicate StartsWithBearer(h: string) {
    |h| >= |BEARER| && h[..|BEARER|] == BEARER
  }

  /** `authHeader.split(" ")[1]`: the text between the first and the second space. */
  function BearerToken(h: string): (t: string)
    requires StartsWithBearer(h)
    ensures t == SplitOn(h[|BEARER|..], ' ')[0]
    ensures ' ' !in t
  {
    SplitAtFirst("Bearer", ' ', h[|BEARER|..]);
    assert h == "Bearer" + [' '] + h[|BEARER|..];
    SplitOn(h, ' ')[1]
  }

  /** A token without spaces sent as `Bearer <token>` is read back as itself. */
  lemma BearerTokenRoundTrip(t: string)
    requires ' ' !in t
    ensures StartsWithBearer(BEARER + t) && BearerToken(BEARER + t) == t
  {
    var h := BEARER + t;
    assert h[|BEARER|..] == t;
    SplitJoin([t], ' ');
  }

  /** What `authenticate` decides: admit with the token's `user` claim, or answer. */
  datatype AuthVerdict = Admit(user: UserClaims) | Refuse(response: Response)

  const UNAUTHORIZED := JsonStatus(401, false, "Unauthorized!")
  const INVALID_TOKEN := JsonStatus(403, false, "Invalid Token!")

  /** The claim has the `_id`, `username` and `role` keys (whatever their values). */
  predicate CompleteClaims(c: UserClaims) {
    c.id.Some? && c.username.Some? && c.role.Some?
  }

  /**
   * `authenticate`: no `Bearer ` header is 401; a token that does not verify
   * under the access secret, the empty string payload, or an object payload
   * missing `user` or one of its three keys is 403. A non-empty string
   * payload makes the `in` operator throw a TypeError, which goes to the
   * error middleware (500).
   */
  function Authenticate(prim: Primitives, cfg: Config.Settings, header: Option<string>, now: nat): (v: AuthVerdict)
  {
    if header.None? || !StartsWithBearer(header.value) then Refuse(UNAUTHORIZED)
    else match VerifyToken(prim, cfg, BearerToken(header.value), now)
      case None => Refuse(INVALID_TOKEN)
      case Some(Text(t)) =>
        if t == "" then Refuse(INVALID_TOKEN)
        else Refuse(Forward(OtherError("Cannot use 'in' operator to search for 'user' in " + t, "")))
      case Some(Claims(user, _, _)) =>
        if user.Some? && CompleteClaims(user.value) then Admit(user.value) else Refuse(INVALID_TOKEN)
  }

  /**
   * `authenticate` admits exactly the requests whose bearer token verifies
   * under the access secret to an object with a complete `user` claim, and
   * then carries that claim; everything else is refused with 401, 403 or an
   * error (500).
   */
  lemma AuthenticateAdmits(prim: Primitives, cfg: Config.Settings, header: Option<string>, now: nat)
    ensures var v := Authenticate(prim, cfg, header, now);
      && (v.Admit? <==>
            && header.Some? && StartsWithBearer(header.value)
            && var p := prim.verify(BearerToken(header.value), cfg.jwtSecret, now);
               p.Some? && p.value.Claims? && p.value.user.Some? && CompleteClaims(p.value.user.value))
      && (v.Admit? ==> v.user == prim.verify(BearerToken(header.value), cfg.jwtSecret, now).value.user.value)
      && (v.Refuse? ==> HttpStatus(v.response) in {401, 403, 500})
      && (header.None? || !StartsWithBearer(header.value) ==> v == Refuse(UNAUTHORIZED))
  {
  }

  /** The identity a verdict attaches to the request. */
  function PrincipalOf(v: AuthVerdict): (p: Principal)
    ensures p.Authenticated? <==> v.Admit? && CompleteClaims(v.user)
    ensures p.Authenticated? ==> Some(p.id) == v.user.id && Some(p.username) == v.user.username && Some(p.role) == v.user.role
  {
    if v.Admit? && CompleteClaims(v.user) then Authenticated(v.user.id.value, v.user.username.value, v.user.role.value)
    else Anonymous
  }

  /** The request as the guards see it: its header, and what `authenticate` attaches. */
  class Request {
    const authorization: Option<string>
    var user: Option<UserClaims>
    var isAuthenticated: bool

    constructor(authorization: Option<string>)
      ensures this.authorization == authorization && user.None? && !isAuthenticated
    {
      this.authorization := authorization;
      user := None;
      isAuthenticated := false;
    }

    /** The identity the handlers see through `isAuthenticated(req)` and `req.user`. */
    function Principal(): (p: Principal)
      reads this
      ensures p.Authenticated? ==> isAuthenticated && user.Some?
    {
      if isAuthenticated && user.Some? && CompleteClaims(user.value) then
        Authenticated(user.value.id.value, user.value.username.value, user.value.role.value)
      else Anonymous
    }
  }

  /**
   * The middleware on a request: on admission it attaches the claim and the
   * flag and calls `next()` (`None`); otherwise it answers and leaves the
   * request as it was.
   */
  method AuthenticateRequest(req: Request, prim: Primitives, cfg: Config.Settings, now: nat)
    returns (answer: Option<Response>)
    modifies req
    ensures var v := Authenticate(prim, cfg, req.authorization, now);
      && (v.Admit? ==> answer.None? && req.user == Some(v.user) && req.isAuthenticated && req.Principal() == PrincipalOf(v))
      && (v.Refuse? ==> answer == Some(v.response) && req.user == old(req.user) && req.isAuthenticated == old(req.isAuthenticated))
  {
    var authHeader := req.authorization;
    if authHeader.None? || !StartsWithBearer(authHeader.value) {
      return Some(UNAUTHORIZED);
    }
    var token := BearerToken(authHeader.value);
    var decoded := VerifyToken(prim, cfg, token, now);
    if decoded.None? || (decoded.value.Text? && decoded.value.text == "") {
      return Some(INVALID_TOKEN);
    }
    if decoded.value.Text? {
      return Some(Forward(OtherError("Cannot use 'in' operator to search for 'user' in " + decoded.value.text, "")));
    }
    if decoded.value.user.None? || !CompleteClaims(decoded.value.user.value) {
      return Some(INVALID_TOKEN);
    }
    req.user := decoded.value.user;
    req.isAuthenticated := true;
    return None;
  }

  // ---- adminOnly ----

  datatype Gate = Pass | Stop(response: Response)

  /**
   * `adminOnly`: an unauthenticated request is an error (401); a claim with
   * an empty id, username or role is 401 "Authentication Required!"; a
   * username no user has is 401; a claimed role other than "admin" is 403.
   */
  function AdminOnly(s: Store, principal: Principal): (g: Gate)
    requires Wellformed(s)
  {
    if principal.Anonymous? then Stop(Fail(401, "Unauthorized!"))
    else if principal.id == "" || principal.username == "" || principal.role == "" then
      Stop(JsonStatus(401, false, "Authentication Required!"))
    else if GetUserByUsername(s, principal.username).None? then Stop(JsonStatus(401, false, "Unauthorized!"))
    else if principal.role != "admin" then Stop(JsonStatus(403, false, "Unauthorized!"))
    else Pass
  }

  /**
   * `adminOnly` lets a request through exactly when it is signed in with a
   * non-empty id, a username some user has, and the claimed role "admin";
   * every refusal is a 401 or a 403.
   */
  lemma AdminOnlyPasses(s: Store, principal: Principal)
    requires Wellformed(s)
    ensures var g := AdminOnly(s, principal);
      && (g.Pass? <==>
            && principal.Authenticated? && principal.id != "" && principal.role == "admin"
            && exists u :: u in s.users.Values && u.username == principal.username && u.username != "")
      && (g.Stop? ==> HttpStatus(g.response) in {401, 403})
  {
  }

  /**
   * `adminOnly` trusts the role in the token and never reads the stored one:
   * a user demoted to basic still passes with an access token issued while
   * they were an administrator.
   */
  lemma AdminOnlyTrustsClaimedRole(s: Store, u: User)
    requires Wellformed(s) && u in s.users.Values && u.role == Basic && u.id != "" && u.username != ""
    ensures AdminOnly(s, Authenticated(u.id, u.username, "admin")) == Pass
    ensures AdminOnly(s, Authenticated(u.id, u.username, RoleName(u.role))) == Stop(JsonStatus(403, false, "Unauthorized!"))
  {
  }
}
