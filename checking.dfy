/**
 * The stand-alone validation server (server/checking.ts): a `validate`
 * middleware over an optional body schema and an optional query schema
 * that collects every issue of both into one list, its own minimal
 * `ApiError` class, and an error handler.
 */
module Checking {
  import opened Prelude
  import opened Schemas
  import opened ResponseHandler

  /** `schema ? schema.safeParse(input) : { success: true }` for one side. */
  function SideResult(schema: Option<Schema>, input: Body, isEmail: string -> bool): (r: ParseResult)
    ensures schema.None? ==> r.Parsed?
    ensures r.Failed? ==> |r.issues| > 0
  {
    if schema.None? then Parsed(map[]) else SafeParse(schema.value, input, isEmail)
  }

  /** The issues a side contributes: its zod issues when it failed, none when it passed. */
  function IssuesOf(result: ParseResult): seq<Issue> {
    if result.Failed? then result.issues else []
  }

  /** One issue as `{ path: "<side>." + path.join("."), message }`. */
  function Tag(side: string, issue: Issue): ErrorItem {
    ErrorItem(side + "." + Join(issue.path, "."), issue.message)
  }

  /** The issues of one side, each tagged with the side, in zod's order. */
  function Tagged(side: string, issues: seq<Issue>): (items: seq<ErrorItem>)
    ensures |items| == |issues|
    ensures forall i :: 0 <= i < |issues| ==>
      items[i].path == side + "." + Join(issues[i].path, ".") && items[i].message == issues[i].message
    decreases |issues|
  {
    if |issues| == 0 then [] else [Tag(side, issues[0])] + Tagged(side, issues[1..])
  }

  /** Tagging one more issue appends one more item. */
  lemma {:induction false} TaggedSnoc(side: string, issues: seq<Issue>, issue: Issue)
    ensures Tagged(side, issues + [issue]) == Tagged(side, issues) + [Tag(side, issue)]
    decreases |issues|
  {
    if |issues| == 0 {
      assert issues + [issue] == [issue];
    } else {
      assert (issues + [issue])[1..] == issues[1..] + [issue];
      TaggedSnoc(side, issues[1..], issue);
    }
  }

  /** Tagging a prefix one issue longer appends that issue's entry. */
  lemma TaggedPrefix(side: string, issues: seq<Issue>, i: nat)
    requires i < |issues|
    ensures Tagged(side, issues[..i + 1]) == Tagged(side, issues[..i]) + [Tag(side, issues[i])]
  {
    assert issues[..i + 1] == issues[..i] + [issues[i]];
    TaggedSnoc(side, issues[..i], issues[i]);
  }

  /** The errors `validate` collects from the two results: the body's first, then the query's. */
  function CollectedErrors(bodyResult: ParseResult, queryResult: ParseResult): seq<ErrorItem> {
    Tagged("body", IssuesOf(bodyResult)) + Tagged("query", IssuesOf(queryResult))
  }

  /** The local `ApiError` keeps only its status and message; its `errors` argument is dropped. */
  datatype LocalError =
    | LocalApiError(status: int, message: string)
    | OtherError(message: string)

  /**
   * `validate(bodySchema, querySchema)`: parse each side, then collect. The
   * `errors` array it builds, and the error it passes to `next` (`None` is
   * `next()`).
   */
  method Validate(bodySchema: Option<Schema>, querySchema: Option<Schema>, body: Body, query: Body,
                  isEmail: string -> bool) returns (errors: seq<ErrorItem>, verdict: Option<LocalError>)
    ensures var bodyResult := SideResult(bodySchema, body, isEmail);
      var queryResult := SideResult(querySchema, query, isEmail);
      && (verdict.None? <==> bodyResult.Parsed? && queryResult.Parsed?)
      && (verdict.Some? ==> verdict.value == LocalApiError(422, "Validation Error") && |errors| > 0)
      && (verdict.Some? ==> errors == CollectedErrors(bodyResult, queryResult))
      && (verdict.None? ==> errors == [])
  {
    var bodyResult := SideResult(bodySchema, body, isEmail);
    var queryResult := SideResult(querySchema, query, isEmail);
    errors, verdict := Collect(bodyResult, queryResult);
    if verdict.Some? {
      CollectedErrorsOrder(bodyResult, queryResult);
    }
  }

  /**
   * The body of the middleware once both sides are parsed: when either
   * failed, push each failing side's tagged issues and pass a 422
   * "Validation Error" to `next`; otherwise call `next()`.
   */
  method Collect(bodyResult: ParseResult, queryResult: ParseResult)
    returns (errors: seq<ErrorItem>, verdict: Option<LocalError>)
    ensures verdict.None? <==> bodyResult.Parsed? && queryResult.Parsed?
    ensures verdict.Some? ==> verdict.value == LocalApiError(422, "Validation Error")
    ensures verdict.Some? ==> errors == CollectedErrors(bodyResult, queryResult)
    ensures verdict.None? ==> errors == []
  {
    errors := [];
    if bodyResult.Failed? || queryResult.Failed? {
      if bodyResult.Failed? {
        errors := PushTagged(errors, "body", bodyResult.issues);
        assert [] + Tagged("body", bodyResult.issues) == Tagged("body", bodyResult.issues);
      }
      ghost var bodyErrors := Tagged("body", IssuesOf(bodyResult));
      assert errors == bodyErrors;
      if queryResult.Failed? {
        errors := PushTagged(errors, "query", queryResult.issues);
      } else {
        assert bodyErrors + Tagged("query", []) == bodyErrors;
      }
      return errors, Some(LocalApiError(422, "Validation Error"));
    }
    return errors, None;
  }

  /** `errors.push(...issues.map(...))` for one side: each issue, tagged, is appended in order. */
  method PushTagged(errors: seq<ErrorItem>, side: string, issues: seq<Issue>) returns (pushed: seq<ErrorItem>)
    ensures pushed == errors + Tagged(side, issues)
  {
    pushed := errors;
    var i := 0;
    while i < |issues|
      invariant 0 <= i <= |issues|
      invariant pushed == errors + Tagged(side, issues[..i])
    {
      TaggedPrefix(side, issues, i);
      pushed := pushed + [Tag(side, issues[i])];
      i := i + 1;
    }
    assert issues[..i] == issues;
  }

  /**
   * The collected list holds every body issue, tagged "body.", followed by
   * every query issue, tagged "query.", each side in zod's order.
   */
  lemma CollectedErrorsOrder(bodyResult: ParseResult, queryResult: ParseResult)
    ensures var errs := CollectedErrors(bodyResult, queryResult);
      var bi := IssuesOf(bodyResult);
      var qi := IssuesOf(queryResult);
      && |errs| == |bi| + |qi|
      && (forall i :: 0 <= i < |bi| ==>
            errs[i] == ErrorItem("body." + Join(bi[i].path, "."), bi[i].message))
      && (forall j :: 0 <= j < |qi| ==>
            errs[|bi| + j] == ErrorItem("query." + Join(qi[j].path, "."), qi[j].message))
  {
    var bi := IssuesOf(bodyResult);
    var qi := IssuesOf(queryResult);
    var errs := CollectedErrors(bodyResult, queryResult);
    forall j | 0 <= j < |qi|
      ensures errs[|bi| + j] == ErrorItem("query." + Join(qi[j].path, "."), qi[j].message)
    {
      assert errs[|bi| + j] == Tagged("query", qi)[j];
    }
  }

  /** What `errorHandler` sends: the HTTP status and the JSON body. */
  datatype LocalBody =
    | StatusOnlyBody(status: int)   // `res.json(err)`: only the own enumerable field `status` is serialised
    | MessageBody(message: string)
  datatype LocalReply = LocalReply(httpStatus: int, body: LocalBody)

  function ErrorHandler(err: LocalError): (r: LocalReply)
    ensures err.LocalApiError? ==> r.httpStatus == err.status && r.body.StatusOnlyBody?
    ensures err.OtherError? ==> r == LocalReply(500, MessageBody("Something went wrong"))
  {
    match err
    case LocalApiError(status, _) => LocalReply(status, StatusOnlyBody(status))
    case OtherError(_) => LocalReply(500, MessageBody("Something went wrong"))
  }

  /**
   * A request that fails either schema is answered 422 with a body that
   * holds only the status: neither the message nor any collected error
   * reaches the client.
   */
  lemma FailedValidationReply(bodySchema: Option<Schema>, querySchema: Option<Schema>, body: Body, query: Body,
                              isEmail: string -> bool)
    requires SideResult(bodySchema, body, isEmail).Failed? || SideResult(querySchema, query, isEmail).Failed?
    ensures |CollectedErrors(SideResult(bodySchema, body, isEmail), SideResult(querySchema, query, isEmail))| > 0
    ensures ErrorHandler(LocalApiError(422, "Validation Error")) == LocalReply(422, StatusOnlyBody(422))
  {
    CollectedErrorsOrder(SideResult(bodySchema, body, isEmail), SideResult(querySchema, query, isEmail));
  }
}
