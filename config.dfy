/**
 * Server configuration (server/src/config/index.ts): values read from the
 * environment with their fallbacks, and the CORS origin rule.
 */
module Config {
  import opened Prelude

  /** The process environment: variable name to value. */
  type Env = map<string, string>

  /** `process.env[name] || fallback`: an unset or empty variable falls back. */
  function EnvOr(env: Env, name: string, fallback: string): (v: string)
    ensures name in env && env[name] != "" ==> v == env[name]
    ensures (name !in env || env[name] == "") ==> v == fallback
  {
    if name in env && env[name] != "" then env[name] else fallback
  }

  /** `process.env.PORT || 4000` yields either the variable's text or the number 4000. */
  datatype Port = PortText(text: string) | PortNumber(n: nat)

  const DEFAULT_PORT: nat := 4000

  /**
   * The exported configuration object. The object in the source has no
   * `userTemporaryTokenExpiry` and no `forgotPasswordRedirectUrl` key, although
   * the helpers and the user controller read them; the model records those two
   * reads as optional values that this configuration leaves absent.
   */
  datatype Settings = Settings(
    port: Port,
    jwtSecret: string,
    jwtRefreshSecret: string,
    jwtTokenExpiry: string,
    jwtRefreshTokenExpiry: string,
    mongoURI: string,
    userTemporaryTokenExpiry: Option<nat>,
    forgotPasswordRedirectUrl: Option<string>)

  /** The configuration built from the environment, as the module's default export does. */
  function FromEnv(env: Env): (c: Settings)
    ensures c.port == (if "PORT" in env && env["PORT"] != "" then PortText(env["PORT"]) else PortNumber(4000))
    ensures c.jwtSecret == (if "TOKEN_SECRET" in env then env["TOKEN_SECRET"] else "")
    ensures c.jwtRefreshSecret == (if "REFRESH_TOKEN_SECRET" in env then env["REFRESH_TOKEN_SECRET"] else "")
    ensures c.jwtTokenExpiry == (if "TOKEN_EXPIRY" in env then env["TOKEN_EXPIRY"] else "")
    ensures c.jwtRefreshTokenExpiry == (if "REFRESH_TOKEN_EXPIRY" in env then env["REFRESH_TOKEN_EXPIRY"] else "")
    ensures c.mongoURI == (if "MONGO_URI" in env then env["MONGO_URI"] else "")
    ensures c.userTemporaryTokenExpiry.None? && c.forgotPasswordRedirectUrl.None?
  {
    Settings(
      port := if "PORT" in env && env["PORT"] != "" then PortText(env["PORT"]) else PortNumber(DEFAULT_PORT),
      jwtSecret := EnvOr(env, "TOKEN_SECRET", ""),
      jwtRefreshSecret := EnvOr(env, "REFRESH_TOKEN_SECRET", ""),
      jwtTokenExpiry := EnvOr(env, "TOKEN_EXPIRY", ""),
      jwtRefreshTokenExpiry := EnvOr(env, "REFRESH_TOKEN_EXPIRY", ""),
      mongoURI := EnvOr(env, "MONGO_URI", ""),
      userTemporaryTokenExpiry := None,
      forgotPasswordRedirectUrl := None)
  }

  const ALLOWED_ORIGINS: seq<string> := [
    "https://www.yoursite.com",
    "http://localhost:5173",
    "http://192.168.0.150:5173"
  ]

  const CORS_ERROR := "Not allowed by CORS"

  /** `corsOptions.credentials` */
  const CORS_CREDENTIALS := true

  /** What the origin callback reports: allowed, or an error with a message. */
  datatype CorsVerdict = Allow | Deny(message: string)

  /** `corsOptions.origin`: a missing or empty origin and the listed origins pass. */
  function CorsOrigin(origin: Option<string>): (v: CorsVerdict)
    ensures v.Allow? <==> origin.None? || origin.value == "" ||
                          origin.value == "https://www.yoursite.com" ||
                          origin.value == "http://localhost:5173" ||
                          origin.value == "http://192.168.0.150:5173"
    ensures v.Deny? ==> v.message == CORS_ERROR
  {
    if origin.None? || origin.value == "" || origin.value in ALLOWED_ORIGINS then Allow
    else Deny(CORS_ERROR)
  }
}
