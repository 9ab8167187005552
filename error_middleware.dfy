/**
 * The error boundary (server/src/middlewares/error.middlewares.ts): every
 * thrown value becomes an `ApiError`, rendered as the uniform failure body.
 */
module ErrorMiddleware {
  import opened Prelude
  import opened ResponseHandler

  /** What reaches `next(err)`: an `ApiError`, a Prisma request error, or any other `Error`. */
  datatype Thrown =
    | Api(error: ApiError)
    | PrismaKnownRequest(message: string, stack: string)
    | PrismaUnknownRequest(message: string, stack: string)
    | OtherError(message: string, stack: string)

  /** The JSON body `errorHandler` sends; `stack` is present only in development. */
  datatype ErrorBody = ErrorBody(success: bool, message: string, errors: seq<ErrorItem>, stack: Option<Stack>)

  datatype Rendered = Rendered(httpStatus: int, body: ErrorBody)

  /** The `ApiError` that `errorHandler` works with. */
  function AsApiError(t: Thrown): (e: ApiError)
    ensures t.Api? ==> e == t.error
    ensures t.PrismaKnownRequest? || t.PrismaUnknownRequest? ==> e.statusCode == 400
    ensures t.OtherError? ==> e.statusCode == 500
    ensures !t.Api? ==> !e.status && e.errors == [] && e.message != ""
    ensures !t.Api? && t.message != "" ==> e.message == t.message
    ensures !t.Api? && t.message == "" ==> e.message == "Something went wrong !"
  {
    match t
    case Api(e) => e
    case PrismaKnownRequest(m, st) => NewApiError(400, if m != "" then m else DEFAULT_ERROR_MESSAGE, [], st)
    case PrismaUnknownRequest(m, st) => NewApiError(400, if m != "" then m else DEFAULT_ERROR_MESSAGE, [], st)
    case OtherError(m, st) => NewApiError(500, if m != "" then m else DEFAULT_ERROR_MESSAGE, [], st)
  }

  /** The HTTP status a thrown value ends in. */
  function StatusOf(t: Thrown): int {
    AsApiError(t).statusCode
  }

  /** `errorHandler(err)`, with `NODE_ENV` as a parameter. */
  function ErrorHandler(t: Thrown, nodeEnv: string): (r: Rendered)
    ensures r.httpStatus == StatusOf(t)
    ensures t.Api? ==> r.httpStatus == t.error.statusCode && r.body.message == t.error.message
                       && r.body.errors == t.error.errors
    ensures r.body.stack.Some? <==> nodeEnv == "development"
  {
    var e := AsApiError(t);
    Rendered(e.statusCode, ErrorBody(e.status, e.message, e.errors, if nodeEnv == "development" then Some(e.stack) else None))
  }

  /** Every error the handlers construct is rendered as a failure: `success` is false. */
  lemma RenderedErrorsFail(code: int, message: string, nodeEnv: string)
    ensures !ErrorHandler(Api(NewApiError(code, message)), nodeEnv).body.success
    ensures ErrorHandler(Api(NewApiError(code, message)), nodeEnv).httpStatus == code
  {
  }

  /** Whatever was thrown, the rendered body reports failure. */
  lemma ConstructedErrorsAlwaysFail(t: Thrown, nodeEnv: string)
    requires t.Api? ==> !t.error.status
    ensures !ErrorHandler(t, nodeEnv).body.success
  {
  }
}
