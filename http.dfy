/**
 * What a handler hands back to Express: the response it sends (or the error
 * it forwards to the error middleware), what it does to the `jwt` cookie,
 * and the email it queues. Email sending runs detached from the response in
 * the source, so here it is an outbox entry that never changes the response.
 */
module Http {
  import opened Prelude
  import opened ResponseHandler
  import opened ErrorMiddleware
  import opened UserService

  /** The user fields the login response exposes. */
  datatype PublicUser = PublicUser(
    id: Id,
    avatar: Option<string>,
    username: string,
    firstName: Option<string>,
    lastName: Option<string>,
    role: Role,
    email: string,
    isEmailVerified: bool,
    loginType: string)

  function PublicProfile(u: User): (p: PublicUser)
    ensures p.id == u.id && p.username == u.username && p.email == u.email && p.role == u.role
    ensures p.firstName.Some? <==> u.profile.Some?
  {
    PublicUser(u.id, if u.profile.Some? then u.profile.value.avatar else None, u.username,
               if u.profile.Some? then Some(u.profile.value.firstName) else None,
               if u.profile.Some? then Some(u.profile.value.lastName) else None,
               u.role, u.email, u.isEmailVerified, u.loginType)
  }

  /** The `data` of a success body. */
  datatype ResponseData =
    | LoginData(accessToken: string, user: PublicUser)
    | AccessTokenData(accessToken: string)
    | UserList(users: seq<User>)

  datatype Response =
    | Json(status: int, body: ApiResponse<ResponseData>)       // res.status(s).json(new ApiResponse(...))
    | JsonStatus(status: int, success: bool, message: string)  // res.status(s).json({ status, message })
    | SendStatus(status: int)                                  // res.sendStatus(s)
    | StatusOnly(status: int)                                  // res.status(s), nothing sent
    | Forward(error: Thrown)                                   // next(error)

  /** The HTTP status the client sees (a forwarded error gets the error middleware's). */
  function HttpStatus(r: Response): int {
    match r
    case Forward(t) => StatusOf(t)
    case Json(s, _) => s
    case JsonStatus(s, _, _) => s
    case SendStatus(s) => s
    case StatusOnly(s) => s
  }

  /** `throw new ApiError(code, message)` inside a handler's `try`. */
  function Fail(code: int, message: string): (r: Response)
    ensures r.Forward? && HttpStatus(r) == code
    ensures r.error.Api? && r.error.error.message == message && !r.error.error.status
  {
    Forward(Api(NewApiError(code, message)))
  }

  /** An update of a record that is gone: the database's not-found error. */
  const UPDATE_NOT_FOUND := Forward(PrismaKnownRequest("Record to update not found.", ""))

  datatype CookieAction =
    | KeepCookie
    | SetJwt(value: string, httpOnly: bool, maxAgeMs: nat)
    | ClearJwt(httpOnly: bool)

  /** One email in the outbox: recipient, subject, the name it greets, and the link it carries. */
  datatype Mail = Mail(to: string, subject: string, greeting: string, link: string)

  datatype Reply = Reply(response: Response, cookie: CookieAction, mail: Option<Mail>)

  /** A handler's result: the store after it ran, and its reply. */
  datatype Outcome = Outcome(store: Store, reply: Reply)

  /** The reply that only forwards an error and leaves the store as it was. */
  function Rejected(s: Store, r: Response): (o: Outcome)
    ensures o.store == s && o.reply.response == r && o.reply.cookie == KeepCookie && o.reply.mail.None?
  {
    Outcome(s, Reply(r, KeepCookie, None))
  }

  /** The identity `authenticate` attaches to a request, if any. */
  datatype Principal = Anonymous | Authenticated(id: string, username: string, role: string)

  /** The name an email greets: the profile's first name, else the username. */
  function Greeting(u: User): (name: string)
    ensures u.profile.Some? ==> name == u.profile.value.firstName
    ensures u.profile.None? ==> name == u.username
  {
    if u.profile.Some? then u.profile.value.firstName else u.username
  }

  /** Where the request came in: `req.protocol` and `req.get("host")`. */
  datatype Origin = Origin(protocol: string, host: Option<string>)

  function SiteRoot(o: Origin): string {
    o.protocol + "://" + Interpolate(o.host)
  }
}
