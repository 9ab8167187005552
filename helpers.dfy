/**
 * Token helpers (server/src/utils/helpers.ts) and the cryptographic
 * primitives they call. SHA-256, bcrypt and JSON Web Token signing are
 * library code outside this model: they are the function-typed fields of
 * `Primitives`, passed in by the caller, so every property proved here holds
 * for whatever those functions compute.
 */
module Helpers {
  import opened Prelude
  import Config

  newtype byte = b: int | 0 <= b < 256

  /** The `user` claim of an access token; a field is `None` when the key is absent. */
  datatype UserClaims = UserClaims(id: Option<string>, username: Option<string>, role: Option<string>)

  /**
   * A decoded token payload: `jwt.verify` returns either a string (a token
   * signed over plain text) or an object. Access tokens carry `{user}`,
   * refresh tokens carry `{_id, username}`.
   */
  datatype Payload =
    | Text(text: string)
    | Claims(user: Option<UserClaims>, id: Option<string>, username: Option<string>)

  /**
   * The library calls: `sha256Hex` is `createHash("sha256")…digest("hex")`;
   * `bcryptHash(password, salt)` is `bcrypt.hash(password, 12)` with its random
   * salt made explicit; `bcryptCompare` is `bcrypt.compare`; `sign(payload,
   * secret, expiresIn, now)` is `jwt.sign`, `None` when it throws; `verify(token,
   * secret, now)` is `jwt.verify`, `None` when it throws.
   */
  datatype Primitives = Primitives(
    sha256Hex: string -> string,
    bcryptHash: (string, string) -> string,
    bcryptCompare: (string, string) -> bool,
    sign: (Payload, string, string, nat) -> Option<string>,
    verify: (string, string, nat) -> Option<Payload>)

  datatype TokenKind = Access | Refresh

  /**
   * What the JSON Web Token library promises: a token it signed verifies,
   * under the secret it was signed with and at the time it was signed, to
   * the payload it carries. Lemmas that need it take it as a hypothesis.
   */
  ghost predicate SignatureSound(prim: Primitives) {
    forall p, k, e, n :: prim.sign(p, k, e, n).Some? ==> prim.verify(prim.sign(p, k, e, n).value, k, n) == Some(p)
  }

  /**
   * `generateAccessToken`: signs with the access secret and expiry, `None`
   * instead of throwing; what it signs verifies as an access token.
   */
  function GenerateAccessToken(prim: Primitives, cfg: Config.Settings, payload: Payload, now: nat): (t: Option<string>)
    ensures t == prim.sign(payload, cfg.jwtSecret, cfg.jwtTokenExpiry, now)
    ensures SignatureSound(prim) && t.Some? ==> VerifyToken(prim, cfg, t.value, now, Access) == Some(payload)
  {
    prim.sign(payload, cfg.jwtSecret, cfg.jwtTokenExpiry, now)
  }

  /**
   * `generateRefreshToken`: signs with the refresh secret and expiry, `None`
   * instead of throwing; what it signs verifies as a refresh token.
   */
  function GenerateRefreshToken(prim: Primitives, cfg: Config.Settings, payload: Payload, now: nat): (t: Option<string>)
    ensures t == prim.sign(payload, cfg.jwtRefreshSecret, cfg.jwtRefreshTokenExpiry, now)
    ensures SignatureSound(prim) && t.Some? ==> VerifyToken(prim, cfg, t.value, now, Refresh) == Some(payload)
  {
    prim.sign(payload, cfg.jwtRefreshSecret, cfg.jwtRefreshTokenExpiry, now)
  }

  /** The secret `verifyToken` selects for a kind. */
  function SecretFor(cfg: Config.Settings, kind: TokenKind): (secret: string)
    ensures kind == Access ==> secret == cfg.jwtSecret
    ensures kind == Refresh ==> secret == cfg.jwtRefreshSecret
  {
    if kind == Access then cfg.jwtSecret else cfg.jwtRefreshSecret
  }

  /**
   * `verifyToken(token, kind)`; the kind defaults to access. A token signed
   * with the kind's secret at that time verifies to its payload.
   */
  function VerifyToken(prim: Primitives, cfg: Config.Settings, token: string, now: nat, kind: TokenKind := Access): (p: Option<Payload>)
    ensures p == prim.verify(token, SecretFor(cfg, kind), now)
    ensures SignatureSound(prim) ==>
      forall payload, expiry :: prim.sign(payload, SecretFor(cfg, kind), expiry, now) == Some(token) ==> p == Some(payload)
  {
    prim.verify(token, SecretFor(cfg, kind), now)
  }

  /** Access tokens depend only on the access settings, refresh tokens only on the refresh settings. */
  lemma TokensUseTheirOwnSettings(prim: Primitives, c1: Config.Settings, c2: Config.Settings, payload: Payload, now: nat)
    ensures c1.jwtSecret == c2.jwtSecret && c1.jwtTokenExpiry == c2.jwtTokenExpiry ==>
      GenerateAccessToken(prim, c1, payload, now) == GenerateAccessToken(prim, c2, payload, now)
    ensures c1.jwtRefreshSecret == c2.jwtRefreshSecret && c1.jwtRefreshTokenExpiry == c2.jwtRefreshTokenExpiry ==>
      GenerateRefreshToken(prim, c1, payload, now) == GenerateRefreshToken(prim, c2, payload, now)
  {
  }

  /** Refresh verification never depends on the access secret, and access verification never on the refresh secret. */
  lemma VerifyTokenSecretSelection(prim: Primitives, c1: Config.Settings, c2: Config.Settings, token: string, now: nat)
    ensures c1.jwtSecret == c2.jwtSecret ==> VerifyToken(prim, c1, token, now) == VerifyToken(prim, c2, token, now)
    ensures c1.jwtRefreshSecret == c2.jwtRefreshSecret ==>
              VerifyToken(prim, c1, token, now, Refresh) == VerifyToken(prim, c2, token, now, Refresh)
    ensures VerifyToken(prim, c1, token, now) == prim.verify(token, c1.jwtSecret, now)
  {
  }

  /** `createHashToken`: the hex SHA-256 digest of a one-time token. */
  function CreateHashToken(prim: Primitives, unHashedToken: string): (digest: string)
    ensures digest == prim.sha256Hex(unHashedToken)
  {
    prim.sha256Hex(unHashedToken)
  }

  // ---- hex encoding of the random bytes (`randomBytes(20).toString("hex")`) ----

  /** A lower-case hex digit, as `toString("hex")` writes them. */
  predicate IsHexDigit(c: char) {
    '0' <= c <= '9' || 'a' <= c <= 'f'
  }

  /** The digit for a value below 16: "0" to "9", then "a" to "f". */
  function HexDigit(d: nat): (c: char)
    requires d < 16
    ensures IsHexDigit(c)
  {
    if d < 10 then ('0' as int + d) as char else ('a' as int + d - 10) as char
  }

  function HexEncode(bytes: seq<byte>): (s: string)
    ensures |s| == 2 * |bytes|
    ensures forall i :: 0 <= i < |s| ==> IsHexDigit(s[i])
  {
    if |bytes| == 0 then ""
    else [HexDigit(bytes[0] as int / 16), HexDigit(bytes[0] as int % 16)] + HexEncode(bytes[1..])
  }

  function HexValue(c: char): (v: Option<nat>)
    ensures v.Some? <==> IsHexDigit(c)
    ensures v.Some? ==> v.value < 16 && HexDigit(v.value) == c
  {
    if '0' <= c <= '9' then Some(c as int - '0' as int)
    else if 'a' <= c <= 'f' then Some(c as int - 'a' as int + 10)
    else None
  }

  /** The inverse of `HexEncode`; `None` on odd length or a non-hex character. */
  function HexDecode(s: string): (r: Option<seq<byte>>)
    decreases |s|
  {
    if |s| == 0 then Some([])
    else if |s| == 1 then None
    else
      var hi, lo, rest := HexValue(s[0]), HexValue(s[1]), HexDecode(s[2..]);
      if hi.Some? && lo.Some? && rest.Some? then Some([(hi.value * 16 + lo.value) as byte] + rest.value) else None
  }

  lemma HexDigitValues(d: nat)
    requires d < 16
    ensures HexValue(HexDigit(d)) == Some(d)
  {
  }

  lemma ByteDigits(b: byte)
    ensures (b as int / 16) < 16 && (b as int / 16 * 16 + b as int % 16) as byte == b
  {
  }

  /** Decoding two hex digits in front of a string prepends their byte to the string's decoding. */
  lemma HexDecodeDigits(hi: nat, lo: nat, t: string)
    requires hi < 16 && lo < 16
    ensures HexDecode([HexDigit(hi), HexDigit(lo)] + t) ==
      if HexDecode(t).Some? then Some([(hi * 16 + lo) as byte] + HexDecode(t).value) else None
  {
    var s := [HexDigit(hi), HexDigit(lo)] + t;
    HexDigitValues(hi);
    HexDigitValues(lo);
    assert s[0] == HexDigit(hi) && s[1] == HexDigit(lo) && s[2..] == t;
  }

  /** Hex decoding undoes hex encoding. */
  lemma {:induction false} HexRoundTrip(bytes: seq<byte>)
    ensures HexDecode(HexEncode(bytes)) == Some(bytes)
  {
    if |bytes| > 0 {
      var b := bytes[0];
      ByteDigits(b);
      HexRoundTrip(bytes[1..]);
      HexDecodeDigits(b as int / 16, b as int % 16, HexEncode(bytes[1..]));
      assert [b] + bytes[1..] == bytes;
    }
  }

  /** Hex encoding is injective: distinct random bytes give distinct tokens. */
  lemma HexEncodeInjective(a: seq<byte>, b: seq<byte>)
    requires HexEncode(a) == HexEncode(b)
    ensures a == b
  {
    HexRoundTrip(a);
    HexRoundTrip(b);
  }

  // ---- one-time tokens ----

  /** Output of `crypto.randomBytes(20)`. */
  type TokenBytes = s: seq<byte> | |s| == 20 witness seq(20, _ => 0 as byte)

  datatype TemporaryToken = TemporaryToken(unHashedToken: string, hashedToken: string, tokenExpiry: nat)

  /** The validity window the source's comment states: 20 minutes, in milliseconds. */
  const TEMPORARY_TOKEN_WINDOW_MS: nat := 20 * 60 * 1000

  /**
   * `generateTemporaryToken` with the 20-minute window its comment states; the
   * clock (`Date.now()`, in milliseconds) and the random bytes are parameters.
   */
  function GenerateTemporaryToken(prim: Primitives, bytes: TokenBytes, now: nat): (t: TemporaryToken)
    ensures |t.unHashedToken| == 40
    ensures HexDecode(t.unHashedToken) == Some(bytes)
    ensures t.hashedToken == CreateHashToken(prim, t.unHashedToken)
    ensures t.tokenExpiry == now + 1_200_000
  {
    HexRoundTrip(bytes);
    var plain := HexEncode(bytes);
    TemporaryToken(plain, CreateHashToken(prim, plain), now + TEMPORARY_TOKEN_WINDOW_MS)
  }

  /**
   * `generateTemporaryToken` as written: the window is read from a configuration
   * key. When the key is absent, `Date.now() + undefined` is NaN and
   * `toISOString()` throws a RangeError; `None` stands for that throw.
   */
  function GenerateTemporaryTokenAsWritten(prim: Primitives, cfg: Config.Settings, bytes: TokenBytes, now: nat): (t: Option<TemporaryToken>)
    ensures t.Some? <==> cfg.userTemporaryTokenExpiry.Some?
    ensures t.Some? ==> t.value.tokenExpiry == now + cfg.userTemporaryTokenExpiry.value
  {
    match cfg.userTemporaryTokenExpiry
    case None => None
    case Some(window) =>
      var plain := HexEncode(bytes);
      Some(TemporaryToken(plain, CreateHashToken(prim, plain), now + window))
  }

  /** With the configuration the server builds, the as-written generator always throws. */
  lemma TemporaryTokenAsWrittenThrows(prim: Primitives, env: Config.Env, bytes: TokenBytes, now: nat)
    ensures GenerateTemporaryTokenAsWritten(prim, Config.FromEnv(env), bytes, now).None?
  {
  }

  /** The corrected generator agrees with the as-written one once the window is configured as 20 minutes. */
  lemma TemporaryTokenCorrected(prim: Primitives, cfg: Config.Settings, bytes: TokenBytes, now: nat)
    requires cfg.userTemporaryTokenExpiry == Some(TEMPORARY_TOKEN_WINDOW_MS)
    ensures GenerateTemporaryTokenAsWritten(prim, cfg, bytes, now) == Some(GenerateTemporaryToken(prim, bytes, now))
  {
  }
}
