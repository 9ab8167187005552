/**
 * The validation middleware (server/src/middlewares/validate.middlewares.ts):
 * a request body that fails its schema is turned into one 422 `ApiError`
 * listing every issue; a body that passes goes on unchanged.
 */
module ValidateMiddleware {
  import opened Prelude
  import opened Schemas
  import opened ResponseHandler
  import opened ErrorMiddleware

  const VALIDATION_STATUS := 422
  const VALIDATION_MESSAGE := "Validation Error"

  /** Each zod issue as `{ path: path.join("."), message }`, in the same order. */
  function ExtractErrors(issues: seq<Issue>): (items: seq<ErrorItem>)
    ensures |items| == |issues|
    ensures forall i :: 0 <= i < |issues| ==>
      items[i].message == issues[i].message && items[i].path == Join(issues[i].path, ".")
  {
    seq(|issues|, i requires 0 <= i < |issues| => ErrorItem(Join(issues[i].path, "."), issues[i].message))
  }

  /**
   * `validate(schema)`: `None` is `next()`, with the body as it came in;
   * `Some(e)` is `next(e)`.
   */
  function Validate(schema: Schema, body: Body, isEmail: string -> bool): (r: Option<ApiError>)
    ensures r.None? <==> SafeParse(schema, body, isEmail).Parsed?
    ensures r.Some? ==>
      && r.value.statusCode == 422 && r.value.message == "Validation Error" && !r.value.status
      && r.value.errors == ExtractErrors(SafeParse(schema, body, isEmail).issues)
      && |r.value.errors| > 0
  {
    match SafeParse(schema, body, isEmail)
    case Parsed(_) => None
    case Failed(issues) => Some(NewApiError(VALIDATION_STATUS, VALIDATION_MESSAGE, ExtractErrors(issues)))
  }

  /** A field-level issue is reported under the field's own key. */
  lemma IssuePathIsKey(key: string, messages: seq<string>)
    ensures forall i :: 0 <= i < |messages| ==>
      ExtractErrors(IssuesAt(key, messages))[i] == ErrorItem(key, messages[i])
  {
  }

  /**
   * A rejected body reaches the client as a 422 failure whose `errors` list
   * every issue, in the order zod reported them.
   */
  lemma RejectedBodyRendering(schema: Schema, body: Body, isEmail: string -> bool, nodeEnv: string)
    requires SafeParse(schema, body, isEmail).Failed?
    ensures var out := ErrorHandler(Api(Validate(schema, body, isEmail).value), nodeEnv);
      && out.httpStatus == 422 && !out.body.success && out.body.message == "Validation Error"
      && |out.body.errors| == |SafeParse(schema, body, isEmail).issues|
      && forall i :: 0 <= i < |out.body.errors| ==>
           out.body.errors[i].message == SafeParse(schema, body, isEmail).issues[i].message
  {
  }

  /** A body with a key missing fails its schema with zod's "Required" issue at that key. */
  lemma {:induction false} MissingKeyIssue(schema: Schema, body: Body, isEmail: string -> bool, k: nat)
    requires k < |schema| && schema[k].0 !in body
    ensures SafeParse(schema, body, isEmail).Failed?
    ensures Issue([schema[k].0], REQUIRED_MESSAGE) in SafeParse(schema, body, isEmail).issues
    decreases |schema|
  {
    var r := SafeParse(schema, body, isEmail);
    var here := ParseField(Lookup(body, schema[0].0), schema[0].1, isEmail);
    var rest := SafeParse(schema[1..], body, isEmail);
    if k == 0 {
      assert here == FieldIssues([REQUIRED_MESSAGE]);
      assert r.issues[0] == IssuesAt(schema[0].0, [REQUIRED_MESSAGE])[0];
    } else {
      assert schema[1..][k - 1] == schema[k];
      MissingKeyIssue(schema[1..], body, isEmail, k - 1);
      if here.FieldIssues? {
        assert r.issues == IssuesAt(schema[0].0, here.messages) + rest.issues;
      } else {
        assert r.issues == rest.issues;
      }
    }
  }

  /** A body with a key missing is rejected, and one of the errors names the key with zod's "Required". */
  lemma MissingKeyReported(schema: Schema, body: Body, isEmail: string -> bool, k: nat)
    requires k < |schema| && schema[k].0 !in body
    ensures Validate(schema, body, isEmail).Some?
    ensures ErrorItem(schema[k].0, REQUIRED_MESSAGE) in Validate(schema, body, isEmail).value.errors
  {
    MissingKeyIssue(schema, body, isEmail, k);
    var issues := SafeParse(schema, body, isEmail).issues;
    var j :| 0 <= j < |issues| && issues[j] == Issue([schema[k].0], REQUIRED_MESSAGE);
    assert ExtractErrors(issues)[j] == ErrorItem(schema[k].0, REQUIRED_MESSAGE);
  }
}
