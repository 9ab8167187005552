/**
 * Request-body validation: the part of zod's string-schema semantics the
 * application's schemas rely on. The checks of a string field run in the
 * order they are written, `trim()` and `toLowerCase()` rewrite the value seen
 * by the checks after them, and every failing check adds one issue.
 */
module Schemas {
  import opened Prelude

  // ---- JavaScript's String.prototype.trim and toLowerCase ----

  /** ECMAScript WhiteSpace and LineTerminator code points, which `trim()` removes. */
  predicate IsJsWhitespace(c: char) {
    c == ' ' || c == '\t' || c == '\n' || c == '\U{000B}' || c == '\U{000C}' || c == '\r' ||
    c == '\U{00A0}' || c == '\U{1680}' || ('\U{2000}' <= c <= '\U{200A}') ||
    c == '\U{2028}' || c == '\U{2029}' || c == '\U{202F}' || c == '\U{205F}' ||
    c == '\U{3000}' || c == '\U{FEFF}'
  }

  /** How many leading characters are whitespace. */
  function LeadingSpace(s: string): (k: nat)
    ensures k <= |s|
    ensures forall i :: 0 <= i < k ==> IsJsWhitespace(s[i])
    ensures k == |s| || !IsJsWhitespace(s[k])
  {
    if |s| > 0 && IsJsWhitespace(s[0]) then 1 + LeadingSpace(s[1..]) else 0
  }

  /** How many trailing characters are whitespace. */
  function TrailingSpace(s: string): (k: nat)
    ensures k <= |s|
    ensures forall i :: |s| - k <= i < |s| ==> IsJsWhitespace(s[i])
    ensures k == |s| || !IsJsWhitespace(s[|s| - 1 - k])
  {
    if |s| > 0 && IsJsWhitespace(s[|s| - 1]) then 1 + TrailingSpace(s[..|s| - 1]) else 0
  }

  /** `s.trim()` */
  function Trim(s: string): (t: string)
    ensures LeadingSpace(s) + |t| <= |s|
    ensures |t| > 0 ==> !IsJsWhitespace(t[0]) && !IsJsWhitespace(t[|t| - 1])
    ensures forall i :: 0 <= i < |t| ==> t[i] == s[LeadingSpace(s) + i]
    ensures forall i :: LeadingSpace(s) + |t| <= i < |s| ==> IsJsWhitespace(s[i])
  {
    var rest := s[LeadingSpace(s)..];
    rest[..|rest| - TrailingSpace(rest)]
  }

  /** Trimming twice is trimming once. */
  lemma TrimIdempotent(s: string)
    ensures Trim(Trim(s)) == Trim(s)
  {
    var t := Trim(s);
    assert LeadingSpace(t) == 0;
    assert TrailingSpace(t[LeadingSpace(t)..]) == 0 by {
      assert t[LeadingSpace(t)..] == t;
    }
  }

  /** A string with no whitespace at either end trims to itself. */
  lemma TrimUnpadded(s: string)
    requires |s| > 0 && !IsJsWhitespace(s[0]) && !IsJsWhitespace(s[|s| - 1])
    ensures Trim(s) == s
  {
    assert LeadingSpace(s) == 0;
    assert s[0..] == s;
    assert TrailingSpace(s) == 0;
  }

  /** A string made only of whitespace trims to the empty string. */
  lemma TrimAllWhitespace(s: string)
    requires forall i :: 0 <= i < |s| ==> IsJsWhitespace(s[i])
    ensures Trim(s) == ""
  {
    var k := LeadingSpace(s);
    assert k == |s|;
  }

  function LowerChar(c: char): char {
    if 'A' <= c <= 'Z' then (c as int - 'A' as int + 'a' as int) as char else c
  }

  /** `s.toLowerCase()` on ASCII letters. */
  function ToLower(s: string): (t: string)
    ensures |t| == |s|
    ensures forall i :: 0 <= i < |s| ==> t[i] == LowerChar(s[i])
  {
    seq(|s|, i requires 0 <= i < |s| => LowerChar(s[i]))
  }

  /** The normal form the login and register schemas give a username. */
  function NormalizeUsername(s: string): string {
    ToLower(Trim(s))
  }

  /** Lower-casing never turns a character into whitespace, nor whitespace into anything else. */
  lemma LowerKeepsWhitespace(c: char)
    ensures IsJsWhitespace(LowerChar(c)) <==> IsJsWhitespace(c)
  {
  }

  /** Lower-casing twice is lower-casing once. */
  lemma ToLowerIdempotent(s: string)
    ensures ToLower(ToLower(s)) == ToLower(s)
  {
    var l := ToLower(s);
    assert forall i :: 0 <= i < |l| ==> ToLower(l)[i] == LowerChar(LowerChar(s[i])) == l[i];
  }

  /** Normalising a normalised username changes nothing. */
  lemma NormalizeIdempotent(s: string)
    ensures NormalizeUsername(NormalizeUsername(s)) == NormalizeUsername(s)
  {
    var t := Trim(s);
    var l := ToLower(t);
    if |l| > 0 {
      LowerKeepsWhitespace(t[0]);
      LowerKeepsWhitespace(t[|t| - 1]);
      TrimUnpadded(l);
    }
    assert Trim(l) == l;
    ToLowerIdempotent(t);
  }

  // ---- zod string checks ----

  datatype Check =
    | MinLength(n: nat, message: string)  // `.min(n, message)`; `.nonempty(message)` is `.min(1, message)`
    | MaxLength(n: nat, message: string)  // `.max(n, message)`
    | TrimValue                            // `.trim()`
    | LowerValue                           // `.toLowerCase()`
    | EmailShape(message: string)          // `.email(message)`

  /**
   * Runs the checks of one string field in order. Returns the value the last
   * rewrite produced and the messages of the failing checks, in order. The
   * email pattern is zod's and is a parameter here.
   */
  function RunChecks(value: string, checks: seq<Check>, isEmail: string -> bool): (r: (string, seq<string>))
    ensures |r.1| <= |checks|
    decreases |checks|
  {
    if |checks| == 0 then (value, [])
    else
      match checks[0]
      case MinLength(n, m) =>
        var rest := RunChecks(value, checks[1..], isEmail);
        (rest.0, (if |value| < n then [m] else []) + rest.1)
      case MaxLength(n, m) =>
        var rest := RunChecks(value, checks[1..], isEmail);
        (rest.0, (if |value| > n then [m] else []) + rest.1)
      case EmailShape(m) =>
        var rest := RunChecks(value, checks[1..], isEmail);
        (rest.0, (if isEmail(value) then [] else [m]) + rest.1)
      case TrimValue => RunChecks(Trim(value), checks[1..], isEmail)
      case LowerValue => RunChecks(ToLower(value), checks[1..], isEmail)
  }

  /** What a rewriting check does to the value; the other checks leave it alone. */
  function Step(c: Check, value: string): string {
    match c
    case TrimValue => Trim(value)
    case LowerValue => ToLower(value)
    case _ => value
  }

  /** Whether a check refuses the value it sees; rewrites never refuse. */
  predicate Refuses(c: Check, value: string, isEmail: string -> bool) {
    match c
    case MinLength(n, _) => |value| < n
    case MaxLength(n, _) => |value| > n
    case EmailShape(_) => !isEmail(value)
    case _ => false
  }

  /** The value after every rewrite among `checks`, applied first to last. */
  function Rewrite(value: string, checks: seq<Check>): string {
    if |checks| == 0 then value else Step(checks[|checks| - 1], Rewrite(value, checks[..|checks| - 1]))
  }

  /** The messages of the checks that refuse the value as it stands when each runs, in order. */
  function FailingMessages(value: string, checks: seq<Check>, isEmail: string -> bool): seq<string> {
    if |checks| == 0 then []
    else
      var init := checks[..|checks| - 1];
      var c := checks[|checks| - 1];
      FailingMessages(value, init, isEmail) +
        (if Refuses(c, Rewrite(value, init), isEmail) then [c.message] else [])
  }

  /** Prefixing a check's own message commutes with appending a later one's. */
  lemma SnocFailure(head: seq<string>, rest: (string, seq<string>), c: Check, isEmail: string -> bool)
    ensures head + (rest.1 + (if Refuses(c, rest.0, isEmail) then [c.message] else [])) ==
            (head + rest.1) + (if Refuses(c, rest.0, isEmail) then [c.message] else [])
  {
  }

  /** A single check rewrites or refuses the value as `Step` and `Refuses` say. */
  lemma RunOne(value: string, c: Check, isEmail: string -> bool)
    ensures RunChecks(value, [c], isEmail) == (Step(c, value), if Refuses(c, value, isEmail) then [c.message] else [])
  {
    assert [c][1..] == [];
    assert RunChecks(Step(c, value), [], isEmail) == (Step(c, value), []);
    match c
    case MinLength(n, m) => assert (if |value| < n then [m] else []) + [] == (if |value| < n then [m] else []);
    case MaxLength(n, m) => assert (if |value| > n then [m] else []) + [] == (if |value| > n then [m] else []);
    case EmailShape(m) => assert (if isEmail(value) then [] else [m]) + [] == (if isEmail(value) then [] else [m]);
    case _ =>
  }

  /** Running one more check extends the run of the ones before it. */
  lemma {:induction false} RunChecksSnoc(value: string, checks: seq<Check>, c: Check, isEmail: string -> bool)
    ensures var before := RunChecks(value, checks, isEmail);
      RunChecks(value, checks + [c], isEmail) ==
        (Step(c, before.0), before.1 + (if Refuses(c, before.0, isEmail) then [c.message] else []))
    decreases |checks|
  {
    var all := checks + [c];
    if |checks| == 0 {
      assert all == [c];
      RunOne(value, c, isEmail);
      var msgs: seq<string> := if Refuses(c, value, isEmail) then [c.message] else [];
      assert RunChecks(value, checks, isEmail) == (value, []);
      assert [] + msgs == msgs;
    } else {
      assert all[0] == checks[0] && all[1..] == checks[1..] + [c];
      match checks[0]
      case TrimValue => RunChecksSnoc(Trim(value), checks[1..], c, isEmail);
      case LowerValue => RunChecksSnoc(ToLower(value), checks[1..], c, isEmail);
      case MinLength(_, m) =>
        RunChecksSnoc(value, checks[1..], c, isEmail);
        SnocFailure(if |value| < checks[0].n then [m] else [], RunChecks(value, checks[1..], isEmail), c, isEmail);
      case MaxLength(_, m) =>
        RunChecksSnoc(value, checks[1..], c, isEmail);
        SnocFailure(if |value| > checks[0].n then [m] else [], RunChecks(value, checks[1..], isEmail), c, isEmail);
      case EmailShape(m) =>
        RunChecksSnoc(value, checks[1..], c, isEmail);
        SnocFailure(if isEmail(value) then [] else [m], RunChecks(value, checks[1..], isEmail), c, isEmail);
    }
  }

  /**
   * `RunChecks` does what a field's checks mean: the value it returns is the
   * rewritten one, and its messages are exactly those of the failing checks,
   * in the order the checks are declared.
   */
  lemma {:induction false} RunChecksMeaning(value: string, checks: seq<Check>, isEmail: string -> bool)
    ensures RunChecks(value, checks, isEmail) == (Rewrite(value, checks), FailingMessages(value, checks, isEmail))
    decreases |checks|
  {
    if |checks| > 0 {
      var init := checks[..|checks| - 1];
      RunChecksMeaning(value, init, isEmail);
      RunChecksSnoc(value, init, checks[|checks| - 1], isEmail);
      assert init + [checks[|checks| - 1]] == checks;
    }
  }

  /** A field of an object schema: a checked string, or `z.enum(options)`. */
  datatype Field =
    | StringField(checks: seq<Check>)
    | EnumField(options: seq<string>)

  /** zod's message for a missing key. */
  const REQUIRED_MESSAGE := "Required"

  /** zod's message for a string outside an enum's options. */
  function EnumMessage(options: seq<string>, received: string): string {
    "Invalid enum value. Expected " + QuotedOptions(options) + ", received '" + received + "'"
  }

  function QuotedOptions(options: seq<string>): string {
    if |options| == 0 then ""
    else if |options| == 1 then "'" + options[0] + "'"
    else "'" + options[0] + "' | " + QuotedOptions(options[1..])
  }

  /** The parsed value of one field, or the messages of its issues. */
  datatype FieldResult = FieldOk(value: string) | FieldIssues(messages: seq<string>)

  function ParseField(input: Option<string>, field: Field, isEmail: string -> bool): (r: FieldResult)
    ensures r.FieldIssues? ==> |r.messages| > 0
    ensures input.None? ==> r == FieldIssues([REQUIRED_MESSAGE])
  {
    match input
    case None => FieldIssues([REQUIRED_MESSAGE])
    case Some(v) =>
      match field
      case StringField(checks) =>
        var (out, msgs) := RunChecks(v, checks, isEmail);
        if |msgs| == 0 then FieldOk(out) else FieldIssues(msgs)
      case EnumField(options) =>
        if v in options then FieldOk(v) else FieldIssues([EnumMessage(options, v)])
  }

  /** One zod issue: the path of keys to the offending value and its message. */
  datatype Issue = Issue(path: seq<string>, message: string)

  /** An object schema: its keys, in declaration order. */
  type Schema = seq<(string, Field)>

  /** The request body: the string-valued keys it carries. */
  type Body = map<string, string>

  function Lookup(body: Body, key: string): Option<string> {
    if key in body then Some(body[key]) else None
  }

  datatype ParseResult = Parsed(data: Body) | Failed(issues: seq<Issue>)

  /** The keys a schema declares. */
  function KeysOf(schema: Schema): set<string> {
    if |schema| == 0 then {} else {schema[0].0} + KeysOf(schema[1..])
  }

  /** An object schema declares each key once. */
  predicate DistinctKeys(schema: Schema) {
    forall i, j :: 0 <= i < j < |schema| ==> schema[i].0 != schema[j].0
  }

  /**
   * `schema.safeParse(body)`: every declared key is parsed; the output holds
   * exactly the declared keys, each with the value its field produced, so
   * unknown keys of the body are dropped.
   */
  function SafeParse(schema: Schema, body: Body, isEmail: string -> bool): (r: ParseResult)
    ensures r.Failed? ==> |r.issues| > 0
    ensures r.Parsed? <==> forall i :: 0 <= i < |schema| ==> ParseField(Lookup(body, schema[i].0), schema[i].1, isEmail).FieldOk?
    ensures r.Parsed? ==> r.data.Keys == KeysOf(schema) && KeysOf(schema) <= body.Keys
    ensures r.Parsed? && DistinctKeys(schema) ==>
      forall i :: 0 <= i < |schema| ==> schema[i].0 in r.data && r.data[schema[i].0] == ParseField(Lookup(body, schema[i].0), schema[i].1, isEmail).value
  {
    if |schema| == 0 then Parsed(map[])
    else
      var (key, field) := schema[0];
      var here := ParseField(Lookup(body, key), field, isEmail);
      var rest := SafeParse(schema[1..], body, isEmail);
      match (here, rest)
      case (FieldOk(v), Parsed(data)) => Parsed(data[key := v])
      case (FieldOk(_), Failed(issues)) => Failed(issues)
      case (FieldIssues(ms), Parsed(_)) => Failed(IssuesAt(key, ms))
      case (FieldIssues(ms), Failed(issues)) => Failed(IssuesAt(key, ms) + issues)
  }

  function IssuesAt(key: string, messages: seq<string>): (r: seq<Issue>)
    ensures |r| == |messages|
    ensures forall i :: 0 <= i < |r| ==> r[i] == Issue([key], messages[i])
  {
    seq(|messages|, i requires 0 <= i < |messages| => Issue([key], messages[i]))
  }
}
