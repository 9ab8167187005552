/**
 * The response envelope (server/src/utils/response-handler.ts): the error
 * that handlers throw and the success body they send.
 */
module ResponseHandler {
  import opened Prelude

  /** One entry of an error's `errors` list, as the validation middleware builds them. */
  datatype ErrorItem = ErrorItem(path: string, message: string)

  /** Where an error's stack comes from: given by the caller, or captured at construction. */
  datatype Stack = GivenStack(text: string) | CapturedStack

  const DEFAULT_ERROR_MESSAGE := "Something went wrong !"
  const DEFAULT_RESPONSE_MESSAGE := "success"

  /**
   * `ApiError`. Its `data` field is always `null` and is left out; `status` is
   * kept because the error handler copies it into the body.
   */
  datatype ApiError = ApiError(statusCode: int, message: string, errors: seq<ErrorItem>, stack: Stack, status: bool)

  /** `new ApiError(statusCode, message?, errors?, stack?)` */
  function NewApiError(statusCode: int, message: string := DEFAULT_ERROR_MESSAGE,
                       errors: seq<ErrorItem> := [], stack: string := ""): (e: ApiError)
    ensures e.statusCode == statusCode && e.message == message && e.errors == errors
    ensures !e.status
    ensures stack != "" ==> e.stack == GivenStack(stack)
    ensures stack == "" ==> e.stack == CapturedStack
  {
    ApiError(statusCode, message, errors, if stack != "" then GivenStack(stack) else CapturedStack, false)
  }

  /** `ApiResponse`, generic in the type of its optional `data`. */
  datatype ApiResponse<D> = ApiResponse(statusCode: int, status: bool, message: string, data: Option<D>)

  /** `new ApiResponse(statusCode, message?, data?)` */
  function NewApiResponse<D>(statusCode: int, message: string := DEFAULT_RESPONSE_MESSAGE, data: Option<D> := None): (r: ApiResponse<D>)
    ensures r.statusCode == statusCode && r.message == message && r.data == data
    ensures r.status <==> statusCode < 400
  {
    ApiResponse(statusCode, statusCode < 400, message, data)
  }

  /** The constructors' defaults: an error without a message says "Something went wrong !", a response says "success". */
  lemma ConstructorDefaults<D>(code: int)
    ensures NewApiError(code).message == "Something went wrong !" && NewApiError(code).errors == []
    ensures NewApiResponse<D>(code).message == "success" && NewApiResponse<D>(code).data.None?
  {
  }
}
