/**
 * The application's request schemas (server/src/validators/auth.validators.ts,
 * user.validators.ts, admin.validators.ts) and, for each, a direct predicate
 * over the body's strings that it is proved to accept exactly.
 */
module Validators {
  import opened Prelude
  import opened Schemas

  // ---- field check lists ----

  function NameChecks(which: string): seq<Check> {
    [MinLength(1, which + " name is required !"), TrimValue,
     MinLength(3, which + " name must be between 3 and 12 characters !"),
     MaxLength(12, which + " name must be between 3 and 12 characters !")]
  }

  const USERNAME_CHECKS: seq<Check> := [
    MinLength(1, "Username is required !"), TrimValue, LowerValue,
    MinLength(3, "Username must be between 3 and 12 characters !"),
    MaxLength(12, "Username must be between 3 and 12 characters !")]

  const EMAIL_CHECKS: seq<Check> := [
    MinLength(1, "Email is required !"), TrimValue, EmailShape("Invalid email address !")]

  const PASSWORD_CHECKS: seq<Check> := [
    MinLength(1, "Password is required !"), TrimValue,
    MinLength(6, "Password must be between 6 and 12 characters !")]

  const LOGIN_USERNAME_CHECKS: seq<Check> := [MinLength(1, "Username is required !"), TrimValue, LowerValue]

  const LOGIN_PASSWORD_CHECKS: seq<Check> := [MinLength(1, "Password is required !"), TrimValue]

  const USER_ID_CHECKS: seq<Check> := [TrimValue, MinLength(1, "User Id is required!")]

  // ---- schemas ----

  /** `RegisterSchema` */
  const REGISTER_SCHEMA: Schema := [
    ("firstName", StringField(NameChecks("First"))),
    ("lastName", StringField(NameChecks("Last"))),
    ("username", StringField(USERNAME_CHECKS)),
    ("email", StringField(EMAIL_CHECKS)),
    ("password", StringField(PASSWORD_CHECKS))]

  /** `LoginSchema` */
  const LOGIN_SCHEMA: Schema := [
    ("username", StringField(LOGIN_USERNAME_CHECKS)),
    ("password", StringField(LOGIN_PASSWORD_CHECKS))]

  /** `ForgotPasswordSchema` */
  const FORGOT_PASSWORD_SCHEMA: Schema := [("email", StringField(EMAIL_CHECKS))]

  /** `PasswordResetSchema` */
  const PASSWORD_RESET_SCHEMA: Schema := [("newPassword", StringField(PASSWORD_CHECKS))]

  /** `ChangePasswordSchema` */
  const CHANGE_PASSWORD_SCHEMA: Schema := [
    ("oldPassword", StringField(PASSWORD_CHECKS)),
    ("newPassword", StringField(PASSWORD_CHECKS))]

  /** The values `UserRolesEnum` allows. */
  const ROLE_OPTIONS: seq<string> := ["basic", "admin"]

  /** `ChangeRoleSchema` */
  const CHANGE_ROLE_SCHEMA: Schema := [
    ("userId", StringField(USER_ID_CHECKS)),
    ("role", EnumField(ROLE_OPTIONS))]

  // ---- what each field list computes ----

  /** A `.min(lo)` then `.max(hi)` pair with one message: each failing bound reports it once. */
  lemma {:induction false} LengthBounds(x: string, lo: nat, hi: nat, m: string, isEmail: string -> bool)
    ensures RunChecks(x, [MinLength(lo, m), MaxLength(hi, m)], isEmail).0 == x
    ensures RunChecks(x, [MinLength(lo, m), MaxLength(hi, m)], isEmail).1 ==
      (if |x| < lo then [m] else []) + (if |x| > hi then [m] else [])
  {
    var c: seq<Check> := [MinLength(lo, m), MaxLength(hi, m)];
    var d: seq<Check> := [MaxLength(hi, m)];
    assert d[1..] == [];
    assert RunChecks(x, [], isEmail).0 == x && RunChecks(x, [], isEmail).1 == [];
    var last := RunChecks(x, d, isEmail);
    assert last.0 == x && last.1 == (if |x| > hi then [m] else []) + [];
    assert c[1..] == d;
  }

  /** A name is required, then trimmed, then must be 3 to 12 characters. */
  lemma {:induction false} NameField(v: string, which: string, isEmail: string -> bool)
    ensures RunChecks(v, NameChecks(which), isEmail).0 == Trim(v)
    ensures RunChecks(v, NameChecks(which), isEmail).1 ==
      (if |v| < 1 then [which + " name is required !"] else []) +
      (if |Trim(v)| < 3 then [which + " name must be between 3 and 12 characters !"] else []) +
      (if |Trim(v)| > 12 then [which + " name must be between 3 and 12 characters !"] else [])
  {
    var c, t := NameChecks(which), Trim(v);
    var m := which + " name must be between 3 and 12 characters !";
    LengthBounds(t, 3, 12, m, isEmail);
    assert RunChecks(v, c[1..], isEmail) == RunChecks(t, [MinLength(3, m), MaxLength(12, m)], isEmail) by {
      assert c[1..][1..] == [MinLength(3, m), MaxLength(12, m)];
    }
  }

  /** A username is required, then trimmed and lower-cased, then must be 3 to 12 characters. */
  lemma {:induction false} UsernameField(v: string, isEmail: string -> bool)
    ensures RunChecks(v, USERNAME_CHECKS, isEmail).0 == NormalizeUsername(v)
    ensures RunChecks(v, USERNAME_CHECKS, isEmail).1 ==
      (if |v| < 1 then ["Username is required !"] else []) +
      (if |Trim(v)| < 3 then ["Username must be between 3 and 12 characters !"] else []) +
      (if |Trim(v)| > 12 then ["Username must be between 3 and 12 characters !"] else [])
  {
    var c, t, n := USERNAME_CHECKS, Trim(v), NormalizeUsername(v);
    var m := "Username must be between 3 and 12 characters !";
    assert |n| == |t|;
    LengthBounds(n, 3, 12, m, isEmail);
    assert RunChecks(v, c[1..], isEmail) == RunChecks(n, [MinLength(3, m), MaxLength(12, m)], isEmail) by {
      assert c[1..][1..][1..] == [MinLength(3, m), MaxLength(12, m)];
    }
  }

  /** An email is required, then trimmed, then must have the email shape. */
  lemma {:induction false} EmailField(v: string, isEmail: string -> bool)
    ensures RunChecks(v, EMAIL_CHECKS, isEmail).0 == Trim(v)
    ensures RunChecks(v, EMAIL_CHECKS, isEmail).1 ==
      (if |v| < 1 then ["Email is required !"] else []) +
      (if isEmail(Trim(v)) then [] else ["Invalid email address !"])
  {
    var c, t := EMAIL_CHECKS, Trim(v);
    var tail := RunChecks(t, [EmailShape("Invalid email address !")], isEmail);
    assert tail.0 == t && tail.1 == if isEmail(t) then [] else ["Invalid email address !"];
    assert RunChecks(v, c[1..], isEmail) == tail by {
      assert c[1..] == [TrimValue, EmailShape("Invalid email address !")];
    }
    assert RunChecks(v, c, isEmail).0 == tail.0 && RunChecks(v, c, isEmail).1 == (if |v| < 1 then ["Email is required !"] else []) + tail.1 by {
      assert c[0] == MinLength(1, "Email is required !");
    }
  }

  /** A password is required, then trimmed, then must have at least 6 characters; there is no upper bound. */
  lemma {:induction false} PasswordField(v: string, isEmail: string -> bool)
    ensures RunChecks(v, PASSWORD_CHECKS, isEmail).0 == Trim(v)
    ensures RunChecks(v, PASSWORD_CHECKS, isEmail).1 ==
      (if |v| < 1 then ["Password is required !"] else []) +
      (if |Trim(v)| < 6 then ["Password must be between 6 and 12 characters !"] else [])
  {
    var c, t := PASSWORD_CHECKS, Trim(v);
    assert c[2..][1..] == [];
    assert RunChecks(t, c[2..], isEmail).0 == t;
    assert RunChecks(t, c[2..], isEmail).1 == if |t| < 6 then ["Password must be between 6 and 12 characters !"] else [];
    assert c[1..][1..] == c[2..];
    assert RunChecks(v, c[1..], isEmail).0 == RunChecks(t, c[2..], isEmail).0;
    assert RunChecks(v, c[1..], isEmail).1 == RunChecks(t, c[2..], isEmail).1;
  }

  /** A user id is trimmed first, so whitespace alone does not count as a character. */
  lemma {:induction false} UserIdField(v: string, isEmail: string -> bool)
    ensures RunChecks(v, USER_ID_CHECKS, isEmail).0 == Trim(v)
    ensures RunChecks(v, USER_ID_CHECKS, isEmail).1 ==
      if |Trim(v)| < 1 then ["User Id is required!"] else []
  {
    var c, t := USER_ID_CHECKS, Trim(v);
    assert c[1..][1..] == [];
    assert RunChecks(t, c[1..], isEmail).0 == t;
    assert RunChecks(t, c[1..], isEmail).1 == if |t| < 1 then ["User Id is required!"] else [];
  }

  // ---- what each field accepts ----

  lemma NameAccepts(v: string, which: string, isEmail: string -> bool)
    ensures ParseField(Some(v), StringField(NameChecks(which)), isEmail).FieldOk? <==> 3 <= |Trim(v)| <= 12
    ensures ParseField(Some(v), StringField(NameChecks(which)), isEmail).FieldOk? ==>
      ParseField(Some(v), StringField(NameChecks(which)), isEmail).value == Trim(v)
  {
    NameField(v, which, isEmail);
  }

  lemma UsernameAccepts(v: string, isEmail: string -> bool)
    ensures ParseField(Some(v), StringField(USERNAME_CHECKS), isEmail).FieldOk? <==> 3 <= |Trim(v)| <= 12
    ensures ParseField(Some(v), StringField(USERNAME_CHECKS), isEmail).FieldOk? ==>
      ParseField(Some(v), StringField(USERNAME_CHECKS), isEmail).value == NormalizeUsername(v)
  {
    UsernameField(v, isEmail);
  }

  lemma EmailAccepts(v: string, isEmail: string -> bool)
    ensures ParseField(Some(v), StringField(EMAIL_CHECKS), isEmail).FieldOk? <==> |v| >= 1 && isEmail(Trim(v))
    ensures ParseField(Some(v), StringField(EMAIL_CHECKS), isEmail).FieldOk? ==>
      ParseField(Some(v), StringField(EMAIL_CHECKS), isEmail).value == Trim(v)
  {
    EmailField(v, isEmail);
  }

  lemma PasswordAccepts(v: string, isEmail: string -> bool)
    ensures ParseField(Some(v), StringField(PASSWORD_CHECKS), isEmail).FieldOk? <==> |Trim(v)| >= 6
    ensures ParseField(Some(v), StringField(PASSWORD_CHECKS), isEmail).FieldOk? ==>
      ParseField(Some(v), StringField(PASSWORD_CHECKS), isEmail).value == Trim(v)
  {
    PasswordField(v, isEmail);
  }

  // ---- each schema against a direct predicate over the body ----

  predicate RegisterBodyValid(body: Body, isEmail: string -> bool) {
    && "firstName" in body && 3 <= |Trim(body["firstName"])| <= 12
    && "lastName" in body && 3 <= |Trim(body["lastName"])| <= 12
    && "username" in body && 3 <= |Trim(body["username"])| <= 12
    && "email" in body && |body["email"]| >= 1 && isEmail(Trim(body["email"]))
    && "password" in body && |Trim(body["password"])| >= 6
  }

  /** The register schema declares its five keys once each, in this order. */
  lemma RegisterShape()
    ensures |REGISTER_SCHEMA| == 5 && DistinctKeys(REGISTER_SCHEMA)
    ensures REGISTER_SCHEMA[0] == ("firstName", StringField(NameChecks("First")))
    ensures REGISTER_SCHEMA[1] == ("lastName", StringField(NameChecks("Last")))
    ensures REGISTER_SCHEMA[2] == ("username", StringField(USERNAME_CHECKS))
    ensures REGISTER_SCHEMA[3] == ("email", StringField(EMAIL_CHECKS))
    ensures REGISTER_SCHEMA[4] == ("password", StringField(PASSWORD_CHECKS))
    ensures KeysOf(REGISTER_SCHEMA) == {"firstName", "lastName", "username", "email", "password"}
  {
    var s := REGISTER_SCHEMA;
    assert forall i :: 0 <= i < 5 ==> |s[i].0| > 0 && s[i].0[0] == "fluep"[i];
    assert s[4..][1..] == [];
    assert KeysOf(s[4..]) == {"password"};
    assert s[3..][1..] == s[4..];
    assert KeysOf(s[3..]) == {"email", "password"};
    assert s[2..][1..] == s[3..];
    assert KeysOf(s[2..]) == {"username", "email", "password"};
    assert s[1..][1..] == s[2..];
    assert KeysOf(s[1..]) == {"lastName", "username", "email", "password"};
  }

  lemma ParsedIffFive(schema: Schema, body: Body, isEmail: string -> bool)
    requires |schema| == 5
    ensures SafeParse(schema, body, isEmail).Parsed? <==>
      && ParseField(Lookup(body, schema[0].0), schema[0].1, isEmail).FieldOk?
      && ParseField(Lookup(body, schema[1].0), schema[1].1, isEmail).FieldOk?
      && ParseField(Lookup(body, schema[2].0), schema[2].1, isEmail).FieldOk?
      && ParseField(Lookup(body, schema[3].0), schema[3].1, isEmail).FieldOk?
      && ParseField(Lookup(body, schema[4].0), schema[4].1, isEmail).FieldOk?
  {
  }

  /** The register schema's verdict is the conjunction of its five fields' verdicts. */
  lemma RegisterSchemaAccepts(body: Body, isEmail: string -> bool)
    ensures SafeParse(REGISTER_SCHEMA, body, isEmail).Parsed? <==> RegisterBodyValid(body, isEmail)
  {
    RegisterShape();
    var s := REGISTER_SCHEMA;
    if "firstName" in body { NameAccepts(body["firstName"], "First", isEmail); }
    if "lastName" in body { NameAccepts(body["lastName"], "Last", isEmail); }
    if "username" in body { UsernameAccepts(body["username"], isEmail); }
    if "email" in body { EmailAccepts(body["email"], isEmail); }
    if "password" in body { PasswordAccepts(body["password"], isEmail); }
    var F0 := ParseField(Lookup(body, s[0].0), s[0].1, isEmail).FieldOk?;
    var F1 := ParseField(Lookup(body, s[1].0), s[1].1, isEmail).FieldOk?;
    var F2 := ParseField(Lookup(body, s[2].0), s[2].1, isEmail).FieldOk?;
    var F3 := ParseField(Lookup(body, s[3].0), s[3].1, isEmail).FieldOk?;
    var F4 := ParseField(Lookup(body, s[4].0), s[4].1, isEmail).FieldOk?;
    assert F0 <==> "firstName" in body && 3 <= |Trim(body["firstName"])| <= 12;
    assert F1 <==> "lastName" in body && 3 <= |Trim(body["lastName"])| <= 12;
    assert F2 <==> "username" in body && 3 <= |Trim(body["username"])| <= 12;
    assert F3 <==> "email" in body && |body["email"]| >= 1 && isEmail(Trim(body["email"]));
    assert F4 <==> "password" in body && |Trim(body["password"])| >= 6;
    ParsedIffFive(s, body, isEmail);
  }

  /** What the register schema outputs for a body it accepts. */
  lemma RegisterSchemaData(body: Body, isEmail: string -> bool)
    requires SafeParse(REGISTER_SCHEMA, body, isEmail).Parsed?
    requires RegisterBodyValid(body, isEmail)
    ensures var data := SafeParse(REGISTER_SCHEMA, body, isEmail).data;
      && data.Keys == {"firstName", "lastName", "username", "email", "password"}
      && data["firstName"] == Trim(body["firstName"]) && data["lastName"] == Trim(body["lastName"])
      && data["username"] == NormalizeUsername(body["username"])
      && data["email"] == Trim(body["email"]) && data["password"] == Trim(body["password"])
  {
    RegisterShape();
    var s := REGISTER_SCHEMA;
    NameAccepts(body["firstName"], "First", isEmail);
    NameAccepts(body["lastName"], "Last", isEmail);
    UsernameAccepts(body["username"], isEmail);
    EmailAccepts(body["email"], isEmail);
    PasswordAccepts(body["password"], isEmail);
    var r := SafeParse(s, body, isEmail);
    var field := (i: int) requires 0 <= i < 5 => ParseField(Lookup(body, s[i].0), s[i].1, isEmail);
    assert forall i :: 0 <= i < 5 ==> r.data[s[i].0] == field(i).value;
  }

  /**
   * `RegisterSchema` accepts exactly the bodies of `RegisterBodyValid`; its
   * output holds the five keys, trimmed, with the username also lower-cased.
   */
  lemma RegisterSchemaExact(body: Body, isEmail: string -> bool)
    ensures SafeParse(REGISTER_SCHEMA, body, isEmail).Parsed? <==> RegisterBodyValid(body, isEmail)
    ensures RegisterBodyValid(body, isEmail) ==>
      var data := SafeParse(REGISTER_SCHEMA, body, isEmail).data;
      && data.Keys == {"firstName", "lastName", "username", "email", "password"}
      && data["firstName"] == Trim(body["firstName"]) && data["lastName"] == Trim(body["lastName"])
      && data["username"] == NormalizeUsername(body["username"])
      && data["email"] == Trim(body["email"]) && data["password"] == Trim(body["password"])
  {
    RegisterSchemaAccepts(body, isEmail);
    if RegisterBodyValid(body, isEmail) {
      RegisterSchemaData(body, isEmail);
    }
  }

  // ---- login ----

  /** At login the username is only required, then trimmed and lower-cased. */
  lemma {:induction false} LoginUsernameField(v: string, isEmail: string -> bool)
    ensures RunChecks(v, LOGIN_USERNAME_CHECKS, isEmail).0 == NormalizeUsername(v)
    ensures RunChecks(v, LOGIN_USERNAME_CHECKS, isEmail).1 == if |v| < 1 then ["Username is required !"] else []
  {
    var c, t, n := LOGIN_USERNAME_CHECKS, Trim(v), NormalizeUsername(v);
    assert RunChecks(n, [], isEmail).0 == n && RunChecks(n, [], isEmail).1 == [];
    assert c[1..] == [TrimValue, LowerValue];
    assert c[1..][1..] == [LowerValue];
    assert c[1..][1..][1..] == [];
    assert RunChecks(v, c[1..], isEmail).0 == n && RunChecks(v, c[1..], isEmail).1 == [];
    assert c[0] == MinLength(1, "Username is required !");
  }

  /** At login the password is only required, then trimmed. */
  lemma {:induction false} LoginPasswordField(v: string, isEmail: string -> bool)
    ensures RunChecks(v, LOGIN_PASSWORD_CHECKS, isEmail).0 == Trim(v)
    ensures RunChecks(v, LOGIN_PASSWORD_CHECKS, isEmail).1 == if |v| < 1 then ["Password is required !"] else []
  {
    var c, t := LOGIN_PASSWORD_CHECKS, Trim(v);
    assert RunChecks(t, [], isEmail).0 == t && RunChecks(t, [], isEmail).1 == [];
    assert c[1..] == [TrimValue];
    assert c[1..][1..] == [];
    assert RunChecks(v, c[1..], isEmail).0 == t && RunChecks(v, c[1..], isEmail).1 == [];
    assert c[0] == MinLength(1, "Password is required !");
  }

  predicate LoginBodyValid(body: Body) {
    "username" in body && |body["username"]| >= 1 && "password" in body && |body["password"]| >= 1
  }

  /**
   * `LoginSchema` only requires both fields to be non-empty (no length bounds);
   * its output holds the normalised username and the trimmed password.
   */
  lemma LoginSchemaExact(body: Body, isEmail: string -> bool)
    ensures SafeParse(LOGIN_SCHEMA, body, isEmail).Parsed? <==> LoginBodyValid(body)
    ensures LoginBodyValid(body) ==>
      var data := SafeParse(LOGIN_SCHEMA, body, isEmail).data;
      && data.Keys == {"username", "password"}
      && data["username"] == NormalizeUsername(body["username"]) && data["password"] == Trim(body["password"])
  {
    var s := LOGIN_SCHEMA;
    assert s[0].0[0] == 'u' && s[1].0[0] == 'p' && s[1..][1..] == [];
    assert KeysOf(s[1..]) == {"password"};
    assert DistinctKeys(s) && KeysOf(s) == {"username", "password"};
    if "username" in body { LoginUsernameField(body["username"], isEmail); }
    if "password" in body { LoginPasswordField(body["password"], isEmail); }
    var r := SafeParse(s, body, isEmail);
    assert r.Parsed? <==> ParseField(Lookup(body, s[0].0), s[0].1, isEmail).FieldOk? && ParseField(Lookup(body, s[1].0), s[1].1, isEmail).FieldOk?;
  }

  // ---- forgot, reset and change password ----

  predicate PasswordValid(body: Body, key: string) {
    key in body && |Trim(body[key])| >= 6
  }

  /** `ForgotPasswordSchema` accepts exactly a present, non-empty email of the right shape, and trims it. */
  lemma ForgotPasswordSchemaExact(body: Body, isEmail: string -> bool)
    ensures SafeParse(FORGOT_PASSWORD_SCHEMA, body, isEmail).Parsed? <==>
      "email" in body && |body["email"]| >= 1 && isEmail(Trim(body["email"]))
    ensures SafeParse(FORGOT_PASSWORD_SCHEMA, body, isEmail).Parsed? ==>
      SafeParse(FORGOT_PASSWORD_SCHEMA, body, isEmail).data == map["email" := Trim(body["email"])]
  {
    var s := FORGOT_PASSWORD_SCHEMA;
    assert s[1..] == [] && DistinctKeys(s) && KeysOf(s) == {"email"};
    if "email" in body { EmailAccepts(body["email"], isEmail); }
    var r := SafeParse(s, body, isEmail);
    assert r.Parsed? <==> ParseField(Lookup(body, s[0].0), s[0].1, isEmail).FieldOk?;
  }

  /** `PasswordResetSchema` accepts exactly a new password of at least 6 characters once trimmed. */
  lemma PasswordResetSchemaExact(body: Body, isEmail: string -> bool)
    ensures SafeParse(PASSWORD_RESET_SCHEMA, body, isEmail).Parsed? <==> PasswordValid(body, "newPassword")
    ensures SafeParse(PASSWORD_RESET_SCHEMA, body, isEmail).Parsed? ==>
      SafeParse(PASSWORD_RESET_SCHEMA, body, isEmail).data == map["newPassword" := Trim(body["newPassword"])]
  {
    var s := PASSWORD_RESET_SCHEMA;
    assert s[1..] == [] && DistinctKeys(s) && KeysOf(s) == {"newPassword"};
    if "newPassword" in body { PasswordAccepts(body["newPassword"], isEmail); }
    var r := SafeParse(s, body, isEmail);
    assert r.Parsed? <==> ParseField(Lookup(body, s[0].0), s[0].1, isEmail).FieldOk?;
  }

  /** `ChangePasswordSchema` accepts exactly two passwords of at least 6 characters once trimmed. */
  lemma ChangePasswordSchemaExact(body: Body, isEmail: string -> bool)
    ensures SafeParse(CHANGE_PASSWORD_SCHEMA, body, isEmail).Parsed? <==>
      PasswordValid(body, "oldPassword") && PasswordValid(body, "newPassword")
    ensures SafeParse(CHANGE_PASSWORD_SCHEMA, body, isEmail).Parsed? ==>
      var data := SafeParse(CHANGE_PASSWORD_SCHEMA, body, isEmail).data;
      && data.Keys == {"oldPassword", "newPassword"}
      && data["oldPassword"] == Trim(body["oldPassword"]) && data["newPassword"] == Trim(body["newPassword"])
  {
    var s := CHANGE_PASSWORD_SCHEMA;
    assert s[0].0[0] == 'o' && s[1].0[0] == 'n' && s[1..][1..] == [];
    assert KeysOf(s[1..]) == {"newPassword"};
    assert DistinctKeys(s) && KeysOf(s) == {"oldPassword", "newPassword"};
    if "oldPassword" in body { PasswordAccepts(body["oldPassword"], isEmail); }
    if "newPassword" in body { PasswordAccepts(body["newPassword"], isEmail); }
    var r := SafeParse(s, body, isEmail);
    assert r.Parsed? <==> ParseField(Lookup(body, s[0].0), s[0].1, isEmail).FieldOk? && ParseField(Lookup(body, s[1].0), s[1].1, isEmail).FieldOk?;
  }

  // ---- change role ----

  /**
   * The issue a role outside the enum gets: each option quoted, joined by
   * " | ", then the received value quoted.
   */
  lemma RoleEnumMessage(received: string)
    ensures EnumMessage(ROLE_OPTIONS, received) ==
      "Invalid enum value. Expected '" + ROLE_OPTIONS[0] + "' | '" + ROLE_OPTIONS[1] + "', received '" + received + "'"
  {
    var a, b := ROLE_OPTIONS[0], ROLE_OPTIONS[1];
    assert ROLE_OPTIONS[1..] == [b];
    assert QuotedOptions(ROLE_OPTIONS) == "'" + a + "' | " + ("'" + b + "'");
  }

  /**
   * `ChangeRoleSchema` accepts exactly a user id that is not blank once trimmed
   * and a role that is literally "basic" or "admin" (no trimming, no case folding).
   */
  lemma ChangeRoleSchemaExact(body: Body, isEmail: string -> bool)
    ensures SafeParse(CHANGE_ROLE_SCHEMA, body, isEmail).Parsed? <==>
      "userId" in body && |Trim(body["userId"])| >= 1 && "role" in body && body["role"] in {"basic", "admin"}
    ensures SafeParse(CHANGE_ROLE_SCHEMA, body, isEmail).Parsed? ==>
      var data := SafeParse(CHANGE_ROLE_SCHEMA, body, isEmail).data;
      && data.Keys == {"userId", "role"}
      && data["userId"] == Trim(body["userId"]) && data["role"] == body["role"]
  {
    var s := CHANGE_ROLE_SCHEMA;
    assert s[0].0[0] == 'u' && s[1].0[0] == 'r' && s[1..][1..] == [];
    assert KeysOf(s[1..]) == {"role"};
    assert DistinctKeys(s) && KeysOf(s) == {"userId", "role"};
    if "userId" in body { UserIdField(body["userId"], isEmail); }
    var r := SafeParse(s, body, isEmail);
    assert r.Parsed? <==> ParseField(Lookup(body, s[0].0), s[0].1, isEmail).FieldOk? && ParseField(Lookup(body, s[1].0), s[1].1, isEmail).FieldOk?;
  }
}
