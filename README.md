# chatapp accounts and sessions, in Dafny

A model of the account and session side of the chatapp server, plus the small pure rules around it. It covers:

- **The user store and its lookups.** A `findFirst` is taken to return the first match in creation order (an assumption, listed under Left out). A `findUnique` works on a unique key.
- **The handlers.** Register, login, logout and refresh are in the auth controller. Email verification, resending the verification email, forgot/reset password and change password are in the user controller. Listing users and changing a role are in the admin controller.
- **The middlewares.** `authenticate`, `adminOnly`, the zod `validate` middleware, and the error handler that turns everything thrown into `ApiError`.
- **The zod schemas.** A model of zod's string checks (`nonempty`, `trim`, `toLowerCase`, `min`, `max`, `email`, `enum`).
- **The route chains** that put middlewares in front of handlers.
- **Smaller pieces.** The token helpers, the configuration defaults and CORS rule, the multer upload rules, the stand-alone `checking.ts` validator, and the client's `classNames`, `requestHandler` and `getChatObjectMetadata`.

**How the model is built.**

- **The database** is a value `Store(users, order)`. `users` maps ids to records. `order` is creation order. The model assumes that `findFirst` and `findMany` return records in that order, which makes them deterministic.
- **Handlers.**
  - Each handler is a pure function `Store → Outcome(store, reply)`. The reply is the response sent or the error forwarded, what happens to the `jwt` cookie, and the email queued.
  - Each handler also has a method on the `UserService.UserStore` class. The class holds the records and updates them in place through the service's own methods (`updateUser`, `userSignUp`, …). Each method is proved to produce exactly what its function specifies.
- **Library calls and the environment are parameters.**
  - The library calls are SHA-256, bcrypt hash/compare and JWT sign/verify. They are function-typed fields of `Helpers.Primitives`, so every property holds whatever those libraries compute.
  - The clock, the random token bytes, the bcrypt salt and the database's fresh id are also parameters.

**Properties proved.**

- **Multi-step properties** are lemmas on the functions:
  - a verification or reset link works once;
  - a login revokes the previous refresh token;
  - logout is idempotent;
  - after logout the cookie no longer refreshes;
  - a login's tokens refresh and authenticate;
  - the registration email's link verifies the account;
  - the forgot-password email's token resets the password;
  - only an access token claiming `admin` changes roles.
- **Every operation that changes the store** preserves `UserService.Inv`: usernames and emails stay unique, ids match their keys, and every token/expiry pair is set or cleared together.

## Model

| member | source | states |
|---|---|---|
| Prelude.Join | server/src/middlewares/validate.middlewares.ts:22 | JavaScript `join`: no parts give "", one part gives that part; `JoinShape` and `SplitJoin` give its length and its inverse |
| Prelude.JoinShape | server/src/middlewares/validate.middlewares.ts:22 | a join is as long as all parts plus one separator between each pair of neighbours, and starts with the first part |
| Prelude.SplitOn | server/src/middlewares/auth.middlewares.ts:25 | `split` on one character gives at least one part and no part contains the separator |
| Prelude.SplitJoin | server/src/middlewares/auth.middlewares.ts:25 | splitting a joined list gives the list back when no part contains the separator |
| Prelude.SplitAtFirst | server/src/middlewares/auth.middlewares.ts:25 | text before the first separator is split off as the first part, the rest splits independently |
| Prelude.NatToString | client/src/utils/index.ts:89 | `String(n)` for a count: a non-empty string of decimal digits that denotes exactly `n`, with a leading "0" only for zero |
| Config.EnvOr | server/src/config/index.ts:24-29 | `process.env.X \|\| fallback`: the variable when it is set and non-empty, the fallback otherwise |
| Config.FromEnv | server/src/config/index.ts:23-31 | each secret, expiry and the database URI is the variable's value when it is set and "" otherwise; the port is the variable's text when set and non-empty, otherwise 4000; the configuration has no temporary-token expiry and no forgot-password URL |
| Config.CorsOrigin | server/src/config/index.ts:9-21 | an origin is allowed exactly when it is missing, empty or one of the three listed origins; otherwise the error "Not allowed by CORS" |
| ResponseHandler.NewApiError | server/src/utils/response-handler.ts:16-33 | an error keeps its status code, message and errors; `status` is always false; a given stack is kept, an empty one is captured |
| ResponseHandler.NewApiResponse | server/src/utils/response-handler.ts:48-57 | a response keeps code, message and data; `status` is true exactly when the code is below 400 |
| ResponseHandler.ConstructorDefaults | server/src/utils/response-handler.ts:18-51 | the default error message is "Something went wrong !" with no errors; the default response message is "success" with no data |
| ErrorMiddleware.AsApiError | server/src/middlewares/error.middlewares.ts:36-53 | an ApiError passes through; Prisma request errors become 400, anything else 500, with the error's message or the default and an empty error list |
| ErrorMiddleware.ErrorHandler | server/src/middlewares/error.middlewares.ts:56-67 | the HTTP status is the ApiError's code, the body carries its message and errors, and the stack is included exactly in development |
| ErrorMiddleware.RenderedErrorsFail | server/src/middlewares/error.middlewares.ts:56-67 | an error a handler throws is sent with its own status and `success: false` |
| ErrorMiddleware.ConstructedErrorsAlwaysFail | server/src/middlewares/error.middlewares.ts:36-67 | whatever was thrown, the rendered body reports failure |
| Schemas.Trim | server/src/validators/auth.validators.ts:7 | the result is the input with leading and trailing whitespace removed: a slice of the input whose ends are not whitespace, and everything dropped before and after it is whitespace |
| Schemas.TrimIdempotent | server/src/validators/auth.validators.ts:7 | trimming twice is trimming once |
| Schemas.TrimUnpadded | server/src/validators/auth.validators.ts:7 | a string with no whitespace at its ends is unchanged by trimming |
| Schemas.TrimAllWhitespace | server/src/validators/auth.validators.ts:7 | a string of whitespace trims to "" |
| Schemas.ToLower | server/src/validators/auth.validators.ts:20 | lower-casing keeps the length and lowers each character |
| Schemas.NormalizeIdempotent | server/src/validators/auth.validators.ts:19-20 | trimming then lower-casing a username a second time changes nothing |
| Schemas.RunChecks | server/src/validators/auth.validators.ts:4-9 | a field's checks run in order and report at most one message per check; `RunChecksMeaning` states exactly which |
| Schemas.RunOne | server/src/validators/auth.validators.ts:4-9 | one check rewrites the value (`trim`, `toLowerCase`) or reports its own message exactly when it refuses the value |
| Schemas.RunChecksSnoc | server/src/validators/auth.validators.ts:4-9 | adding a check at the end applies it to the value the earlier checks produced and appends its message when it refuses that value |
| Schemas.RunChecksMeaning | server/src/validators/auth.validators.ts:4-9 | the parsed value is the input after every rewrite in order, and the messages are exactly those of the checks that refuse the value as it stands when they run, in declaration order |
| Schemas.ParseField | server/src/validators/admin.validators.ts:3-6 | a missing key gives zod's "Required"; a failing field always has a message |
| Schemas.SafeParse | server/src/middlewares/validate.middlewares.ts:18 | parsing succeeds exactly when every declared field parses; the output has exactly the declared keys, each with its field's parsed value; a failure has at least one issue |
| Schemas.IssuesAt | server/src/middlewares/validate.middlewares.ts:21-24 | every issue of a field has that field's key as its path |
| Validators.NameField | server/src/validators/auth.validators.ts:4-15 | a name yields its trimmed value and the messages "required" (empty), "between 3 and 12" (too short after trimming) and "between 3 and 12" (too long), in that order |
| Validators.UsernameField | server/src/validators/auth.validators.ts:16-22 | a username yields its trimmed lower-cased value and the required / length messages in order |
| Validators.EmailField | server/src/validators/auth.validators.ts:23-27 | an email yields its trimmed value, "Email is required !" when empty and "Invalid email address !" when the trimmed value is not an address |
| Validators.PasswordField | server/src/validators/auth.validators.ts:28-32 | a password yields its trimmed value, the required message when empty and the length message below 6 characters after trimming |
| Validators.UserIdField | server/src/validators/admin.validators.ts:4 | a user id yields its trimmed value and "User Id is required!" exactly when that is empty |
| Validators.NameAccepts | server/src/validators/auth.validators.ts:4-15 | a name is accepted exactly when it is 3 to 12 characters after trimming, and then parses to the trimmed value |
| Validators.UsernameAccepts | server/src/validators/auth.validators.ts:16-22 | a username is accepted exactly when it is 3 to 12 characters after trimming, and then parses to its normalised form |
| Validators.EmailAccepts | server/src/validators/auth.validators.ts:23-27 | an email is accepted exactly when non-empty and its trimmed value is an address |
| Validators.PasswordAccepts | server/src/validators/auth.validators.ts:28-32 | a password is accepted exactly when it has at least 6 characters after trimming; no upper bound is enforced |
| Validators.RegisterSchemaAccepts | server/src/validators/auth.validators.ts:3-33 | a registration body parses exactly when all five fields are present and valid |
| Validators.RegisterSchemaData | server/src/validators/auth.validators.ts:3-33 | a parsed registration body has exactly the five keys with trimmed names, email and password and a normalised username |
| Validators.RegisterSchemaExact | server/src/validators/auth.validators.ts:3-33 | both of the above together: acceptance iff validity, and the parsed values |
| Validators.LoginUsernameField | server/src/validators/auth.validators.ts:38 | a login username yields its normalised form and fails only when empty |
| Validators.LoginPasswordField | server/src/validators/auth.validators.ts:39 | a login password yields its trimmed value and fails only when empty |
| Validators.LoginSchemaExact | server/src/validators/auth.validators.ts:37-40 | a login body parses exactly when both keys are present and non-empty, to the normalised username and trimmed password |
| Validators.ForgotPasswordSchemaExact | server/src/validators/user.validators.ts:3-5 | a forgot-password body parses exactly when its email is non-empty and an address after trimming, to `{email: trimmed}` |
| Validators.PasswordResetSchemaExact | server/src/validators/user.validators.ts:9-15 | a reset body parses exactly when the new password is valid, to `{newPassword: trimmed}` |
| Validators.ChangePasswordSchemaExact | server/src/validators/user.validators.ts:19-30 | a change-password body parses exactly when both passwords are valid, to their trimmed values |
| Validators.RoleEnumMessage | server/src/validators/admin.validators.ts:5 | the enum failure message lists 'basic' \| 'admin' and the received value |
| Validators.ChangeRoleSchemaExact | server/src/validators/admin.validators.ts:3-6 | a role body parses exactly when the trimmed user id is non-empty and the role is "basic" or "admin", to the trimmed id and the role |
| ValidateMiddleware.ExtractErrors | server/src/middlewares/validate.middlewares.ts:21-24 | one entry per issue, in order, with the path joined by "." and the issue's message |
| ValidateMiddleware.Validate | server/src/middlewares/validate.middlewares.ts:16-29 | the middleware passes exactly when the body parses; otherwise a 422 "Validation Error" carrying every issue |
| ValidateMiddleware.IssuePathIsKey | server/src/middlewares/validate.middlewares.ts:22 | a field's issues are reported under the field's key |
| ValidateMiddleware.RejectedBodyRendering | server/src/middlewares/validate.middlewares.ts:20-26 | a refused body reaches the client as 422, `success: false`, "Validation Error", with one error per issue carrying its message |
| ValidateMiddleware.MissingKeyIssue | server/src/middlewares/validate.middlewares.ts:18 | a body missing a declared key fails with a "Required" issue at that key |
| ValidateMiddleware.MissingKeyReported | server/src/middlewares/validate.middlewares.ts:18-25 | that missing key appears in the 422 error's list |
| Helpers.GenerateAccessToken | server/src/utils/helpers.ts:6-17 | the token is signed over the payload with the access secret and access expiry (`None` where the library throws); when signing is sound it verifies as an access token to that payload |
| Helpers.GenerateRefreshToken | server/src/utils/helpers.ts:19-30 | the token is signed with the refresh secret and refresh expiry; when signing is sound it verifies as a refresh token to that payload |
| Helpers.SecretFor | server/src/utils/helpers.ts:37-38 | the access kind selects the access secret and the refresh kind the refresh secret |
| Helpers.VerifyToken | server/src/utils/helpers.ts:32-44 | verification uses the secret of the token's kind (`None` where the library throws); when signing is sound, a token signed with that secret verifies to its payload |
| Helpers.TokensUseTheirOwnSettings | server/src/utils/helpers.ts:6-30 | access tokens depend only on the access secret and expiry, refresh tokens only on the refresh ones |
| Helpers.VerifyTokenSecretSelection | server/src/utils/helpers.ts:32-44 | verification depends only on the secret of its kind; the kind defaults to access |
| Helpers.CreateHashToken | server/src/utils/helpers.ts:46-48 | the digest stored for a one-time token is the hex SHA-256 of the token |
| Helpers.HexEncode | server/src/utils/helpers.ts:53 | hex text has two lower-case hex digits per byte |
| Helpers.HexRoundTrip | server/src/utils/helpers.ts:53 | decoding the hex text gives the bytes back |
| Helpers.HexEncodeInjective | server/src/utils/helpers.ts:53 | different bytes give different tokens |
| Helpers.GenerateTemporaryToken | server/src/utils/helpers.ts:50-64 | the token is 40 hex characters encoding the random bytes; the stored hash is its SHA-256; it expires 20 minutes later |
| Helpers.GenerateTemporaryTokenAsWritten | server/src/utils/helpers.ts:59-61 | the helper returns a token exactly when the configuration has a temporary-token expiry, and adds that expiry to the clock |
| Helpers.TemporaryTokenAsWrittenThrows | server/src/utils/helpers.ts:59-61 | with the configuration the server exports, the helper never returns |
| Helpers.TemporaryTokenCorrected | server/src/utils/helpers.ts:58-61 | with a 20-minute expiry configured, the helper gives the corrected token |
| UserService.RoleName | server/src/services/v1/user.services.ts:21 | a role is named "basic" or "admin" |
| UserService.ParseRole | server/src/validators/admin.validators.ts:5 | exactly "basic" and "admin" name a role |
| UserService.RoleNameRoundTrip | server/src/services/v1/user.services.ts:21 | parsing a role's name gives the role back |
| UserService.FindIn | server/src/services/v1/user.services.ts:85-91 | a match found is a stored record that matches; none is found exactly when no record in the order matches |
| UserService.Find | server/src/services/v1/user.services.ts:85-91 | `findFirst`: a match is a stored matching record; none exactly when no stored record matches |
| UserService.FindTheOnly | server/src/services/v1/user.services.ts:85-91 | when exactly one record matches, `findFirst` returns it |
| UserService.UniqueLookup | server/src/services/v1/user.services.ts:49-71 | a lookup by username, email or id returns the one record with that key |
| UserService.FindExistingUser | server/src/services/v1/user.services.ts:41-47 | a record is found exactly when one has the username or the email, and the one found does |
| UserService.GetUserByUsername | server/src/services/v1/user.services.ts:49-55 | found exactly when a record has the username, and the one found does |
| UserService.GetUserByEmail | server/src/services/v1/user.services.ts:57-63 | found exactly when a record has the email, and the one found does |
| UserService.GetUserById | server/src/services/v1/user.services.ts:65-71 | found exactly when the id is stored, and it is the record under that id |
| UserService.GetRefreshToken | server/src/services/v1/user.services.ts:85-91 | found exactly when a record holds the refresh token, and the one found does |
| UserService.VerifyEmailToken | server/src/services/v1/user.services.ts:123-132 | found exactly when a record holds the digest with an expiry not yet passed, and the one found does |
| UserService.VerifyPasswordResetToken | server/src/services/v1/user.services.ts:134-143 | found exactly when a record holds the reset digest with an expiry not yet passed, and the one found does |
| UserService.GetUserByProperty | server/src/controllers/v1/auth.controllers.ts:101 | the lookup by "username", "refreshToken" or "id" is the corresponding service lookup |
| UserService.AllUsers | server/src/services/v1/user.services.ts:11-13 | every stored record exactly once, in creation order |
| UserService.Apply | server/src/services/v1/user.services.ts:73-83 | an update never changes id, username, email, login type or profile |
| UserService.ApplyEmpty | server/src/services/v1/user.services.ts:73-83 | an update with no fields changes nothing |
| UserService.Update | server/src/services/v1/user.services.ts:73-83 | `update` succeeds exactly when the id is stored, rewrites only that record and keeps the rest and the order |
| UserService.UpdateKeepsKeys | server/src/services/v1/user.services.ts:73-83 | after an update every record keeps its id, username and email |
| UserService.UpdateKeepsInv | server/src/services/v1/user.services.ts:73-83 | an update that sets or clears token pairs together keeps the store's invariant |
| UserService.UpdateSoleMatch | server/src/services/v1/user.services.ts:73-91 | when only the updated record could match and it still matches, `findFirst` returns the updated record |
| UserService.UpdateReleases | server/src/services/v1/user.services.ts:73-91 | when only the updated record matched and no longer does, `findFirst` finds nothing |
| UserService.SignUp | server/src/config/db.ts:7-31 | sign-up succeeds exactly when username and email are unused, appending one new record |
| UserService.NewUser | server/src/config/db.ts:15-30 | the new record has the bcrypt hash of the password, role basic by default, the profile's names, no tokens, and is unverified |
| UserService.InsertKeepsInv | server/src/config/db.ts:16-30 | inserting a record with a fresh id, username and email keeps the invariant |
| UserService.SignUpKeepsInv | server/src/services/v1/user.services.ts:15-31 | a successful sign-up keeps the invariant and the new user is basic |
| UserService.UserStore.constructor | server/src/services/v1/user.services.ts:7-9 | the service starts over an empty store that satisfies the invariant |
| UserService.UserStore.UpdateUser | server/src/services/v1/user.services.ts:73-83 | the new state is the update of the old one, or unchanged when the id is missing; the updated record is returned |
| UserService.UserStore.SaveRefreshToken | server/src/services/v1/user.services.ts:93-102 | the user's refresh token becomes the given one and nothing else changes |
| UserService.UserStore.DeleteRefreshToken | server/src/services/v1/user.services.ts:104-113 | the user's refresh token is cleared and nothing else changes |
| UserService.UserStore.UserSignUp | server/src/services/v1/user.services.ts:15-31 | the new state is the sign-up of the old one; the created record is the stored one |
| Http.PublicProfile | server/src/controllers/v1/auth.controllers.ts:157-167 | the login response's user has the record's id, username, email and role, and names exactly when it has a profile |
| Http.Fail | server/src/controllers/v1/auth.controllers.ts:39 | a thrown ApiError reaches the client with its code and message and `status: false` |
| Http.Greeting | server/src/controllers/v1/auth.controllers.ts:70 | an email greets the profile's first name, or the username without a profile |
| AuthMiddleware.BearerToken | server/src/middlewares/auth.middlewares.ts:18-25 | the token is the text after "Bearer " up to the next space, and has no space |
| AuthMiddleware.BearerTokenRoundTrip | server/src/middlewares/auth.middlewares.ts:18-25 | "Bearer " followed by a space-free token passes the prefix check and yields that token |
| AuthMiddleware.AuthenticateAdmits | server/src/middlewares/auth.middlewares.ts:14-47 | a request is admitted exactly when it has a Bearer header whose token verifies under the access secret to a `user` with id, username and role, and then carries that user; otherwise 401 without a Bearer header, 403 or 500 |
| AuthMiddleware.PrincipalOf | server/src/middlewares/auth.middlewares.ts:41-42 | a request is authenticated exactly when it was admitted with complete claims, and as that id, username and role |
| AuthMiddleware.Request.constructor | server/src/middlewares/auth.middlewares.ts:8-11 | a fresh request carries only its header, no user, and is not authenticated |
| AuthMiddleware.Request.Principal | server/src/middlewares/auth.middlewares.ts:41-42 | a request counts as authenticated only when the flag is set and a user is attached |
| AuthMiddleware.AuthenticateRequest | server/src/middlewares/auth.middlewares.ts:14-47 | admitting sets `req.user` and the flag and calls next; refusing sends the response and leaves the request as it was |
| AuthMiddleware.AdminOnlyPasses | server/src/middlewares/auth.middlewares.ts:50-84 | `adminOnly` passes exactly when the principal has an id, claims role "admin" and its username is stored; otherwise 401 or 403 |
| AuthMiddleware.AdminOnlyTrustsClaimedRole | server/src/middlewares/auth.middlewares.ts:73-78 | the role checked is the token's claim: a stored basic user claiming admin passes, the same user with its stored role is refused 403 |
| AdminController.GetAllUsersHandler | server/src/controllers/v1/admin.controller.ts:14-24 | the handler's reply is the specified one and the store is unchanged |
| AdminController.GetAllUsersListsEveryone | server/src/controllers/v1/admin.controller.ts:14-24 | 200 with every stored user exactly once and no duplicate ids |
| AdminController.ChangeUserRole | server/src/controllers/v1/admin.controller.ts:33-47 | no account is added or removed; the outcomes are in `ChangeUserRoleOutcome` |
| AdminController.ChangeUserRoleHandler | server/src/controllers/v1/admin.controller.ts:33-47 | the new store and reply are the specified ones |
| AdminController.ChangeUserRoleOutcome | server/src/controllers/v1/admin.controller.ts:33-47 | an unknown id is refused 404 with nothing changed; a known one gets the new role and 200, nothing else changes; the invariant holds |
| AdminController.ChangeUserRoleIdempotent | server/src/controllers/v1/admin.controller.ts:33-47 | assigning the same role twice leaves the store as once |
| AuthController.VerificationPatch | server/src/controllers/v1/auth.controllers.ts:57-60 | the verification token and its expiry are set together |
| AuthController.RegisterUser | server/src/controllers/v1/auth.controllers.ts:32-86 | the handler's new store and reply are those of `Register` |
| AuthController.RegisterAsWrittenFails | server/src/controllers/v1/auth.controllers.ts:53 | as written, under the configuration the server builds, a fresh registration stores exactly the sign-up store (the user, with no verification token), sends no email and answers 500 |
| AuthController.RegisterRejectsDuplicates | server/src/controllers/v1/auth.controllers.ts:37-40 | a taken username or email is refused 409 with nothing changed and no email |
| AuthController.RegisterFresh | server/src/controllers/v1/auth.controllers.ts:32-86 | a fresh registration stores the user with a verification pair, answers 201 "User created successfully!", and emails the link `/api/v1/users/verify-email/<token>` to the new address |
| AuthController.RegisteredStore | server/src/controllers/v1/auth.controllers.ts:43-60 | registration adds exactly one record under the new id at the end of the order, keeps every other record, and keeps the invariant |
| AuthController.RegisteredUser | server/src/controllers/v1/auth.controllers.ts:43-60 | the new user is basic and unverified, with the hashed password, the profile names, no refresh or reset token, and the token's digest with a 20-minute expiry |
| AuthController.RegisterCreatesUser | server/src/controllers/v1/auth.controllers.ts:32-86 | a fresh registration answers 201 with body code 200, emails the verification link, and keeps the invariant |
| AuthController.Login | server/src/controllers/v1/auth.controllers.ts:96-173 | no account is added or removed; the outcomes are in `LoginFailures`, `LoginPastChecks` and `LoginSucceeds` |
| AuthController.LoginUser | server/src/controllers/v1/auth.controllers.ts:96-173 | the handler's new store and reply are those of `Login` |
| AuthController.LoginFailures | server/src/controllers/v1/auth.controllers.ts:101-111 | an unknown username is refused 400 "User not found!" and a wrong password 400 "Invalid Password!", with nothing changed |
| AuthController.LoginPastChecks | server/src/controllers/v1/auth.controllers.ts:113-142 | once the password matches, the answer is 201, or 500 when signing fails |
| AuthController.LoginSucceeds | server/src/controllers/v1/auth.controllers.ts:113-169 | a login signs the access and refresh claims, stores the refresh token on that user only, sets it as an http-only one-day cookie, answers 201 with the access token and public profile, and keeps the invariant |
| AuthController.LoginRevokesEarlierRefreshTokens | server/src/controllers/v1/auth.controllers.ts:137-139 | after a login, the user's previous refresh token matches no user |
| AuthController.Logout | server/src/controllers/v1/auth.controllers.ts:183-219 | no account is added or removed; the outcomes are in `LogoutOutcome` |
| AuthController.LogoutUser | server/src/controllers/v1/auth.controllers.ts:183-219 | the handler's new store and reply are those of `Logout` |
| AuthController.LogoutOutcome | server/src/controllers/v1/auth.controllers.ts:183-219 | logout always answers 204; it clears the cookie exactly when one was sent; it nulls the holder's refresh token or changes nothing; it keeps the invariant |
| AuthController.LogoutIdempotent | server/src/controllers/v1/auth.controllers.ts:183-219 | logging out twice with the same cookie gives the same outcome as once |
| AuthController.Refresh | server/src/controllers/v1/auth.controllers.ts:228-274 | refreshing never changes the store, the cookie or the outbox |
| AuthController.RefreshAccessToken | server/src/controllers/v1/auth.controllers.ts:228-274 | the handler's reply is that of `Refresh` and the store is unchanged |
| AuthController.RefreshStatuses | server/src/controllers/v1/auth.controllers.ts:228-274 | no cookie gives 401; a token no user holds gives a bare 403 status with nothing sent; a token that does not verify to the holder gives 403; otherwise 201 with a new access token for the holder |
| AuthController.RefreshSucceeds | server/src/controllers/v1/auth.controllers.ts:240-270 | a held token verifying to its holder's id and username gets 201 with an access token signed over the holder's claims |
| UserController.GetAllUsers | server/src/controllers/v1/user.controllers.ts:24-31 | 200 listing every stored user exactly once, store unchanged |
| UserController.VerifyEmail | server/src/controllers/v1/user.controllers.ts:33-61 | no account is added or removed; the outcomes are in `VerifyEmailOutcome` |
| UserController.VerifyEmailHandler | server/src/controllers/v1/user.controllers.ts:33-61 | the handler's new store and reply are those of `VerifyEmail` |
| UserController.VerifyEmailOutcome | server/src/controllers/v1/user.controllers.ts:33-61 | a missing token is 400, an unknown or expired one 489, both changing nothing; a live one answers 200 and marks its holder verified with the pair cleared, nothing else changing; the invariant holds |
| UserController.VerifyEmailSucceeds | server/src/controllers/v1/user.controllers.ts:42-57 | a live token held by one user verifies that user |
| UserController.VerifyEmailOnce | server/src/controllers/v1/user.controllers.ts:44-55 | a verification link that worked is refused 489 the next time |
| UserController.ResendVerificationEmail | server/src/controllers/v1/user.controllers.ts:63-111 | no account is added or removed; the outcomes are in `ResendFor` and `ResendRefusals` (with the 20-minute window: corrected half of Findings row 1) |
| UserController.ResendVerificationEmailHandler | server/src/controllers/v1/user.controllers.ts:63-111 | the handler's new store and reply are those of `ResendVerificationEmail` (with the 20-minute window: corrected half of Findings row 1) |
| UserController.ResendWith | server/src/controllers/v1/user.controllers.ts:85-107 | once the token exists: 200 "Verification email sent successfully !", the cookie untouched, and only the user's token fields change |
| UserController.ResendVerificationEmailAsWritten | server/src/controllers/v1/user.controllers.ts:63-111 | as written: the same refusals, and the token step's error is forwarded before any update; no account is added or removed |
| UserController.ResendAsWrittenFails | server/src/controllers/v1/user.controllers.ts:83 | under the configuration the server builds, a resend for a signed-in unverified user answers 500, stores nothing and sends no email |
| UserController.ResendAsWrittenCorrected | server/src/controllers/v1/user.controllers.ts:83 | with a 20-minute window configured, the as-written resend is the modelled one |
| UserController.ResendFor | server/src/controllers/v1/user.controllers.ts:63-111 | for an unverified user: a fresh verification pair is stored, 200 is answered, and the link `/api/users/verify-email/<token>` is emailed (with the 20-minute window: corrected half of Findings row 1) |
| UserController.ResendStoresToken | server/src/controllers/v1/user.controllers.ts:83-89 | the user then holds the new token's digest with a 20-minute expiry, and the invariant holds (with the 20-minute window: corrected half of Findings row 1) |
| UserController.ResendReplacesToken | server/src/controllers/v1/user.controllers.ts:85-89 | the previous verification token no longer verifies anyone (with the 20-minute window: corrected half of Findings row 1) |
| UserController.ResendRefusals | server/src/controllers/v1/user.controllers.ts:66-81 | anonymous is 401, an unknown username 404, an already verified user 409, with nothing changed |
| UserController.ResetRequestPatch | server/src/controllers/v1/user.controllers.ts:125-128 | the reset token and its expiry are set together |
| UserController.ForgotPasswordHandler | server/src/controllers/v1/user.controllers.ts:113-150 | the handler's new store and reply are those of `ForgotPassword` (with the 20-minute window: corrected half of Findings row 1) |
| UserController.ForgotPassword | server/src/controllers/v1/user.controllers.ts:113-150 | no account is added or removed; an unknown email is refused (see `ForgotPasswordUnknown`) |
| UserController.ForgotWith | server/src/controllers/v1/user.controllers.ts:124-146 | once the token exists: 200 "Password reset email sent successfully !", the cookie untouched, and only the user's reset fields change |
| UserController.ForgotPasswordAsWritten | server/src/controllers/v1/user.controllers.ts:113-150 | as written: an unknown email is refused, and the token step's error is forwarded before any update; no account is added or removed |
| UserController.ForgotPasswordAsWrittenFails | server/src/controllers/v1/user.controllers.ts:122 | under the configuration the server builds, a reset request for a known email answers 500, stores nothing and sends no email |
| UserController.ForgotPasswordAsWrittenCorrected | server/src/controllers/v1/user.controllers.ts:122 | with a 20-minute window configured, the as-written reset request is the modelled one |
| UserController.ForgotPasswordUnknown | server/src/controllers/v1/user.controllers.ts:117-120 | an unknown email is refused 404 with nothing changed |
| UserController.ForgotPasswordOutcome | server/src/controllers/v1/user.controllers.ts:113-150 | the user gets a reset digest with a 20-minute expiry, nobody else changes, 200 is answered, and the reset link is emailed (with the 20-minute window: corrected half of Findings row 1) |
| UserController.ResetPatch | server/src/controllers/v1/user.controllers.ts:170-174 | the reset pair is cleared together |
| UserController.ResetPassword | server/src/controllers/v1/user.controllers.ts:152-180 | no account is added or removed; the outcomes are in `ResetPasswordOutcome` |
| UserController.ResetPasswordHandler | server/src/controllers/v1/user.controllers.ts:152-180 | the handler's new store and reply are those of `ResetPassword` |
| UserController.ResetPasswordOutcome | server/src/controllers/v1/user.controllers.ts:152-180 | an empty token is 400, an unknown or expired one 489, both changing nothing; a live one answers 200, sets the new password's hash and clears the pair, nothing else changing; the invariant holds |
| UserController.ResetPasswordSucceeds | server/src/controllers/v1/user.controllers.ts:162-176 | a live reset token held by one user resets that user's password |
| UserController.ResetPasswordOnce | server/src/controllers/v1/user.controllers.ts:164-174 | a reset link that worked is refused 489 the next time, whatever password is sent |
| UserController.ChangePassword | server/src/controllers/v1/user.controllers.ts:182-210 | no account is added or removed; the outcomes are in `ChangePasswordOutcome` and `ChangePasswordRefusals` |
| UserController.ChangePasswordHandler | server/src/controllers/v1/user.controllers.ts:182-210 | the handler's new store and reply are those of `ChangePassword` |
| UserController.ChangePasswordOutcome | server/src/controllers/v1/user.controllers.ts:189-206 | a wrong old password is 400 with nothing changed; a right one answers 200 and replaces only that user's password hash |
| UserController.ChangePasswordRefusals | server/src/controllers/v1/user.controllers.ts:185-195 | anonymous is 401 and an unknown username 404, with nothing changed |
| Routes.Invalid | server/src/middlewares/validate.middlewares.ts:20-26 | a refused body forwards the validation error and changes nothing |
| Routes.RegisterRouteAsWritten | server/src/routes/v1/auth.routes.ts:9 | an invalid registration body is answered 422 with nothing changed; a valid one reaches the as-written handler with the raw fields |
| Routes.RegisterRoute | server/src/routes/v1/auth.routes.ts:9 | an invalid body is 422 with nothing changed; a valid one reaches `Register` with trimmed names, email and password and the normalised username (corrected half of Findings row 2) |
| Routes.LoginRouteAsWritten | server/src/routes/v1/auth.routes.ts:12 | no account is added or removed; an invalid body is 422 with nothing changed; a valid one reaches `Login` with the raw username and password |
| Routes.LoginRoute | server/src/routes/v1/auth.routes.ts:12 | as above, but `Login` gets the normalised username and trimmed password (corrected half of Findings row 2) |
| Routes.LogoutRoute | server/src/routes/v1/auth.routes.ts:15 | no account is added or removed; without a cookie nothing changes; the answer is 204 or 403 and no email is sent |
| Routes.RefreshRoute | server/src/routes/v1/auth.routes.ts:18 | the store, the cookie and the outbox are untouched; without a cookie the answer is 401 |
| Routes.VerifyEmailRoute | server/src/routes/v1/user.routes.ts:15 | no account is added or removed; without a token the answer is 400 with nothing changed |
| Routes.ForgotPasswordRoute | server/src/routes/v1/user.routes.ts:17 | no account is added or removed; a body without a valid email is 422 with nothing changed; a valid one reaches `forgotPassword` with the trimmed email |
| Routes.ResetPasswordRoute | server/src/routes/v1/user.routes.ts:19 | no account is added or removed; an invalid new password is 422 with nothing changed; a valid one reaches `resetPassword` with the trimmed password |
| Routes.ResendVerificationRoute | server/src/routes/v1/user.routes.ts:23 | no account is added or removed; a request `authenticate` refuses gets that refusal with nothing changed |
| Routes.ChangePasswordRoute | server/src/routes/v1/user.routes.ts:25-30 | no account is added or removed; `authenticate`'s refusal is passed on with nothing changed; an admitted request with an invalid body is 422 with nothing changed (corrected half of Findings row 2) |
| Routes.ChangePasswordRouteAsWritten | server/src/routes/v1/user.routes.ts:25-30 | the same guards, with the handler given the raw body |
| Routes.RegisteredUserCanLogIn | server/src/routes/v1/auth.routes.ts:9-12 | after registering, logging in with the same username up to case and padding and the same password gets past the checks (201, or 500 when signing fails) |
| Routes.AnnNormalises | server/src/validators/auth.validators.ts:19-20 | "Ann" and "ann" normalise to the same username |
| Routes.CaseMismatchAsWritten | server/src/middlewares/validate.middlewares.ts:18-28 | as written and under the configuration the server builds, registering "Ann" answers 500 yet keeps the account, and logging in as "ann" is then refused 400 "User not found!"; with the parsed body the same login gets past the checks |
| Routes.ChangePasswordNeedsToken | server/src/routes/v1/user.routes.ts:25-30 | with the parsed body (corrected half of Findings row 2): the password changes only for an admitted access token, and only the token user's password changes, to the hash of the trimmed new password |
| Routes.ChangePasswordAsWrittenNeedsToken | server/src/routes/v1/user.routes.ts:25-30 | as written: the same guard, but the old password is compared as typed and the stored hash is that of the new password as typed, padding included |
| Routes.ChangePasswordAsWrittenAgrees | server/src/middlewares/validate.middlewares.ts:18-28 | when no body value carries padding, the as-written and parsed change-password routes agree |
| Routes.ListUsersRoute | server/src/routes/v1/admin.routes.ts:9 | listing users never changes the store |
| Routes.AssignRoleRoute | server/src/routes/v1/admin.routes.ts:11-17 | no account is added or removed; `authenticate`'s and `adminOnly`'s refusals are passed on with nothing changed |
| Routes.AssignRoleNeedsAdminClaim | server/src/routes/v1/admin.routes.ts:11-17 | with the parsed body (corrected half of Findings row 2): a role changes only for an admitted token claiming admin with a valid body, and only the role of the user whose id is the trimmed `userId` |
| Routes.AssignRoleRouteAsWritten | server/src/routes/v1/admin.routes.ts:11-17 | the same guards, with the handler given the raw `userId` |
| Routes.AssignRoleAsWrittenNeedsAdminClaim | server/src/routes/v1/admin.routes.ts:11-17 | as written: the same guard, but the user changed is the one whose id is `userId` as typed |
| Routes.PaddedUserIdAsWritten | server/src/middlewares/validate.middlewares.ts:18-28 | a `userId` padded around a stored id: as written the admin gets 404 "User not found!" and nothing changes; with the parsed body that user's role changes |
| Routes.ListUsersNeedsAdminClaim | server/src/routes/v1/admin.routes.ts:9 | the list is sent only to an admitted token claiming admin |
| Checking.SideResult | server/checking.ts:28-29 | a side without a schema passes; a side that fails reports at least one issue |
| Checking.Tagged | server/checking.ts:38-41 | one entry per issue, in order, with the path prefixed by the side and joined by "." |
| Checking.Validate | server/checking.ts:18-56 | `next()` exactly when both sides pass; otherwise a 422 "Validation Error" with a non-empty list of the body's errors then the query's |
| Checking.Collect | server/checking.ts:34-55 | from the two parse results: `next()` exactly when both succeeded, else 422 with each failing side's tagged issues, body first |
| Checking.PushTagged | server/checking.ts:38-42 | pushing one side's issues appends exactly their tagged entries, in order, after what was collected |
| Checking.CollectedErrorsOrder | server/checking.ts:34-51 | the collected list is every body issue tagged "body." followed by every query issue tagged "query." |
| Checking.ErrorHandler | server/checking.ts:103-114 | an ApiError is sent with its status and a body holding only `status`; anything else is 500 "Something went wrong" |
| Checking.FailedValidationReply | server/checking.ts:95-114 | a failed validation has errors, yet the client receives only `{status: 422}` |
| Upload.FileFilter | server/src/middlewares/multer.middlewares.ts:16-25 | a file is accepted exactly when its type is JPEG, PNG or GIF; otherwise the "Invalid file type" error |
| Upload.Extension | server/src/middlewares/multer.middlewares.ts:11 | the extension contains no "." |
| Upload.StoredName | server/src/middlewares/multer.middlewares.ts:9-13 | the stored name is the id, ".", then a part with the original's extension |
| Upload.ExtensionWithoutDot | server/src/middlewares/multer.middlewares.ts:11 | a name without "." is its own extension |
| Upload.ExtensionAfterLastDot | server/src/middlewares/multer.middlewares.ts:11 | the extension is the text after the last "." |
| ClientUtils.NonEmpty | client/src/utils/index.ts:7 | the kept names are exactly the non-empty ones |
| ClientUtils.ClassNamesEmpty | client/src/utils/index.ts:5-8 | the class string is empty exactly when every name is empty |
| ClientUtils.ClassNamesSplit | client/src/utils/index.ts:5-8 | splitting the class string on spaces gives back the non-empty names |
| ClientUtils.LastMessageText | client/src/utils/index.ts:74-80 | the last-message line is the content when non-empty, "No messages yet" without a message |
| ClientUtils.AttachmentWording | client/src/utils/index.ts:77-79 | a message without text reads "<n> attachment", with a final "s" exactly when n > 1 |
| ClientUtils.OtherParticipant | client/src/utils/index.ts:97 | the first participant whose id is not the logged-in user's; none exactly when every participant is that user |
| ClientUtils.GetChatObjectMetadata | client/src/utils/index.ts:68-106 | a group shows the placeholder avatar, its name and "<n> members in the chat"; a one-to-one chat shows the last-message line and nothing else when there is no other participant |
| ClientUtils.GroupLastMessage | client/src/utils/index.ts:90-92 | a group's last message is prefixed by the sender's username and ": " |
| ClientUtils.OneToOneShowsOther | client/src/utils/index.ts:94-105 | a two-person chat shows the other person's username, email and avatar |
| ClientUtils.Page.SetLoading | client/src/utils/index.ts:28 | setting loading records it and changes nothing else |
| ClientUtils.Page.RequestHandler | client/src/utils/index.ts:21-64 | a run records the trace of the call; storage is cleared exactly on a 401/403 error body, and the page goes to /login exactly then in a browser |
| ClientUtils.Page.ReportFailure | client/src/utils/index.ts:36-59 | a failed call clears storage and, in a browser, goes to /login exactly on a 401/403 error body, then calls `onError` with the server message, the thrown message or the fallback |
| ClientUtils.TraceLoading | client/src/utils/index.ts:27-63 | with a loading setter, loading turns on first and off last and nowhere else; without one it never appears |
| ClientUtils.TraceCallbacks | client/src/utils/index.ts:33-59 | a success calls only `onSuccess`, a failure only `onError`; storage is cleared exactly on an auth failure, and the redirect happens exactly on one in a browser |
| ClientUtils.AnsweredFailureMessage | client/src/utils/index.ts:33-39 | an answered call without `status` fails with the server's message, or "Something went wrong!" |
| Flows.RegisterThenVerify | server/src/controllers/v1/auth.controllers.ts:53-73 | the emailed registration token, used within 20 minutes, verifies the new account: 200, verified, pair cleared |
| Flows.LoginThenRefresh | server/src/controllers/v1/auth.controllers.ts:127-151 | the refresh cookie a login sets gets a new access token (201) while no other user holds it and it still verifies |
| Flows.LoginThenAuthenticate | server/src/controllers/v1/auth.controllers.ts:114-121 | the access token a login returns, sent as "Bearer <token>", authenticates as that user with the user's role |
| Flows.LogoutReleasesCookie | server/src/controllers/v1/auth.controllers.ts:189-207 | after logout no user holds the cookie's refresh token, and the store stays well formed |
| Flows.LogoutThenRefresh | server/src/controllers/v1/auth.controllers.ts:204-206 | after logout the same cookie is refused 403 by refresh |
| Flows.ForgotThenReset | server/src/controllers/v1/user.controllers.ts:122-128 | the emailed reset token, used within 20 minutes, resets the password: 200, new hash, pair cleared (with the 20-minute window: corrected half of Findings row 1) |

## Left out

- **Outside the model.**
  - Email delivery, the Mailgen templates and `console.log` are left out. An email is an outbox entry in the reply.
  - The SHA-256, bcrypt and JWT algorithms are function parameters, not implementations.
  - Clocks, random bytes, uuids, bcrypt salts and the database's fresh ids are parameters.
  - The network and Express's own request handling are left out.
  - `tryCatchWrapper` (server/src/middlewares/error.middlewares.ts:17-21) only forwards a rejected promise to `next`. The handlers' `Forward` response is that.
- **Detached updates.** The registration, resend and forgot-password updates run detached from the response. The model applies each update before the reply, in one step. It does not model interleaving with other requests, or an update that fails after the response was sent.
- **Concurrency.** Requests are processed one at a time; database races are not modelled.
- **Missing sources.** `getUserByProperty` and `isAuthenticated` are called but not defined in the service or helpers files.
  - `getUserByProperty` is an exact-match lookup on the named field.
  - `isAuthenticated` is the flag `authenticate` sets.
- **Unused lookup.** `resendVerificationEmail` in server/src/services/v1/user.services.ts:115-121 is a `findFirst` by email that no handler calls. `GetUserByEmail` is the same lookup.
- **Unreachable branches.** The `!result` branch of logout, the `!result` branch after login's refresh-token update (its 500 answer), and the `!users` branch of the admin `getAllUsers` cannot be reached, because `update` and `findMany` never return null. A failed update is the database's not-found error.
- **Unrouted handler.** `getAllUsers` in the user controller is not routed. It is modelled, but no route reaches it.
- **Password hashing.** The hashing service calls (`checkPassword`, `createPasswordHash`) are `bcryptCompare` and `bcryptHash` with the cost factor left implicit.
- **Stand-alone validator (server/checking.ts).** Its test routes (`/test2` to `/test4`), `app.listen` and zod's `.optional()` fields are not modelled. Its `validate` and `errorHandler` are.
- **Upload limit.** Multer enforces the 1 MB upload limit itself. The model keeps the constant, not the enforcement.
- **Client local storage.** The client's `LocalStorage` class (client/src/utils/index.ts:109-141) wraps the browser's storage and JSON. Only `requestHandler`'s `localStorage.clear()` is modelled. JSON parsing is not.
- **`isBrowser`** is a parameter, not a global.
- **Callbacks.** In `requestHandler`, `onSuccess`, `onError` and `setLoading` are assumed not to throw.
- **Zod's email pattern** is a parameter (`isEmail`).
- UserService.Find: the model assumes `findFirst` and `findMany` return records in creation order. Prisma promises no order without `orderBy`, so which of several matches is returned, and the order of the user list, are assumptions.
- Schemas.RunChecks: zod's `min` and `max` count UTF-16 code units. The model counts Dafny characters, so a string with characters outside the Basic Multilingual Plane is measured differently.
- Schemas.ParseField: a request body is `Body = map<string, string>`. A field sent as a number, a boolean, an object or `null` cannot be expressed, so zod's "Expected string" issue is not modelled.
- Routes.ForgotPasswordRoute: modelled only with the parsed email. As written the handler gets the raw email, so a padded address misses the lookup; the as-written route is not modelled separately.
- Routes.ResetPasswordRoute: modelled only with the parsed new password. As written the handler hashes the raw password, padding included; the as-written route is not modelled separately.
- **Case folding.** Whitespace and lower-casing follow JavaScript's `trim` and ASCII `toLowerCase`. Unicode case folding is not modelled.
- **No password confirmation.** The password change and reset handlers compare no `confirmPassword`; the model follows the code.

Quirks of the code that the model keeps as written:

- Refresh's not-found branch sets status 403 and sends nothing (`StatusOnly(403)`).
- The resend link lacks `/v1` (`/api/users/verify-email/…`).
- The forgot-password link starts with the configuration's absent redirect URL, which JavaScript interpolates as "undefined".
- `adminOnly` trusts the role claimed in the token.
- In `authenticate`, a token whose payload is a non-empty string makes the `in` operator throw. The error middleware turns that into 500, not 403.
- The password schemas' messages say "between 6 and 12 characters", but there is no `max(12)`. The model has no upper bound either.

## Findings

| source | as written | input that shows it | evidently intended | confidence | as-written member | corrected member |
|---|---|---|---|---|---|---|
| server/src/utils/helpers.ts:59-61 | `Date.now() + config.userTemporaryTokenExpiry`, but the configuration has no such key: the sum is NaN and `toISOString()` throws, so every registration answers 500 and stores no verification token | any registration with a fresh username and email, under any environment | a 20-minute token window, as the comment at line 58 says | not executed | Helpers.TemporaryTokenAsWrittenThrows, AuthController.RegisterAsWrittenFails | Helpers.TemporaryTokenCorrected, AuthController.RegisterFresh |
| server/src/controllers/v1/user.controllers.ts:83 | the resend handler calls the same `generateTemporaryToken`, which throws before the update: the error middleware answers 500, no new token is stored and no email is sent | a signed-in user whose email is not verified asks for a new verification email, under any environment | a fresh 20-minute verification token is stored and emailed, with 200 | not executed | UserController.ResendAsWrittenFails | UserController.ResendAsWrittenCorrected, UserController.ResendFor |
| server/src/controllers/v1/user.controllers.ts:122 | the forgot-password handler calls the same `generateTemporaryToken`, which throws before the update: 500, no reset token is stored and no email is sent | a reset request for any registered email, under any environment | a 20-minute reset token is stored and emailed, with 200 | not executed | UserController.ForgotPasswordAsWrittenFails | UserController.ForgotPasswordAsWrittenCorrected, UserController.ForgotPasswordOutcome |
| server/src/middlewares/validate.middlewares.ts:18-28 | `safeParse` output is discarded and `next()` runs on the raw body, so the schemas' `trim()` and `toLowerCase()` never reach the handlers | register username "Ann", then log in as "ann" with the same password: "User not found!" | handlers see the parsed body, so usernames are stored normalised, padded passwords and ids are trimmed | not executed | Routes.CaseMismatchAsWritten, Routes.ChangePasswordAsWrittenNeedsToken, Routes.PaddedUserIdAsWritten | Routes.RegisteredUserCanLogIn, Routes.ChangePasswordNeedsToken, Routes.AssignRoleNeedsAdminClaim |
