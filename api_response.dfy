/**
 * The client's reply handling: frontend/src/utils/handleApiResponse.js.
 * The toast the helpers raise is returned as a value.
 */
module ApiResponse {
  import opened Wrappers

  /** The `data` of a response: `success`, `message` (empty when absent) and the rest of its fields. */
  datatype ApiData<T> = ApiData(success: bool, message: string, payload: Option<T>)

  /** An axios response, whose `data` may be missing. */
  datatype ApiResponse<T> = ApiResponse(data: Option<ApiData<T>>)

  /** The `data` of an error's response, whose `message` may be empty or absent. */
  datatype ErrorData = ErrorData(message: string)

  /** An axios error: the server's response, if one came back, and the error's own message. */
  datatype ApiError = ApiError(response: Option<Option<ErrorData>>, message: string)

  datatype Toast = NoToast | SuccessToast(text: string) | ErrorToast(text: string)

  const SomethingWentWrong := "Something went wrong"

  /** `{}`, what a missing response or missing data turns into. */
  function EmptyData<T>(): ApiData<T> {
    ApiData(false, "", None)
  }

  /** `res?.data || {}`. */
  function DataOf<T>(res: Option<ApiResponse<T>>): (d: ApiData<T>)
    ensures res.Some? && res.value.data.Some? ==> d == res.value.data.value
    ensures res.None? || res.value.data.None? ==> d == EmptyData()
  {
    if res.Some? && res.value.data.Some? then res.value.data.value else EmptyData()
  }

  /** `data.message || (success ? "Success" : "Something went wrong")`: never empty. */
  function MessageOf<T>(data: ApiData<T>): (m: string)
    ensures m != ""
    ensures data.message != "" ==> m == data.message
    ensures data.message == "" ==> m == (if data.success then "Success" else SomethingWentWrong)
  {
    if data.message != "" then data.message
    else if data.success then "Success"
    else SomethingWentWrong
  }

  /**
   * `handleApiResponse(res, { showSuccess, successMessage })`: returns the
   * data unchanged; raises an error toast exactly when `success` is falsy and
   * a success toast exactly when both `success` and `showSuccess` hold, with
   * `successMessage` (when given) in place of the chosen message.
   */
  function HandleApiResponse<T>(res: Option<ApiResponse<T>>, showSuccess: bool := true, successMessage: string := "")
    : (r: (ApiData<T>, Toast))
    ensures r.0 == DataOf(res)
    ensures r.1.ErrorToast? <==> !r.0.success
    ensures r.1.SuccessToast? <==> r.0.success && showSuccess
    ensures r.1.ErrorToast? ==> r.1.text == MessageOf(r.0)
    ensures r.1.SuccessToast? ==> r.1.text == (if successMessage != "" then successMessage else MessageOf(r.0))
  {
    var data := DataOf(res);
    var message := MessageOf(data);
    var toast :=
      if data.success then
        (if showSuccess then SuccessToast(if successMessage != "" then successMessage else message) else NoToast)
      else ErrorToast(message);
    (data, toast)
  }

  /** `error?.response?.data?.message`, empty when any link is missing. */
  function ResponseMessage(error: Option<ApiError>): string {
    if error.Some? && error.value.response.Some? && error.value.response.value.Some?
    then error.value.response.value.value.message
    else ""
  }

  /**
   * `handleApiError(error, fallbackMessage)`: an error toast with the
   * server's message, else the error's own message, else the fallback.
   */
  function HandleApiError(error: Option<ApiError>, fallback: string := SomethingWentWrong): (t: Toast)
    ensures t.ErrorToast?
    ensures ResponseMessage(error) != "" ==> t.text == ResponseMessage(error)
    ensures ResponseMessage(error) == "" && error.Some? && error.value.message != "" ==> t.text == error.value.message
    ensures ResponseMessage(error) == "" && (error.None? || error.value.message == "") ==> t.text == fallback
  {
    var own := if error.Some? then error.value.message else "";
    ErrorToast(if ResponseMessage(error) != "" then ResponseMessage(error) else if own != "" then own else fallback)
  }

  /** The result of an API call: a response, or the error axios threw. */
  datatype Call<T> = Responded(response: Option<ApiResponse<T>>) | Threw(error: Option<ApiError>)
}
