/** server/middleware/errorMiddleware.js: the fallback handler that turns an
    error object into a response. Logging is not modelled. */
module ErrorMiddleware {
  import opened Common
  import opened Http

  /** The two properties of an error the handler reads; `None` is `undefined`. */
  datatype ErrorInfo = ErrorInfo(status: Option<nat>, message: Option<string>)

  const DefaultErrorMessage: string := "An unexpected error occurred."

  /** `err.status || 500` and `err.message || 'An unexpected error occurred.'`
      (0 and '' are falsy), sent as `{success: false, message}` and nothing else. */
  function HandleError(err: ErrorInfo): (r: Response)
    ensures r.body.Failure? && !Succeeded(r.body)
    ensures err.status.Some? && err.status.value != 0 ==> r.status == err.status.value
    ensures err.status.None? || err.status.value == 0 ==> r.status == 500
    ensures TruthyText(err.message) ==> r.body.message == err.message.value
    ensures !TruthyText(err.message) ==> r.body.message == DefaultErrorMessage
    ensures r.status != 0 && r.body.message != ""
  {
    var status := if err.status.Some? && err.status.value != 0 then err.status.value else 500;
    var message := if TruthyText(err.message) then err.message.value else DefaultErrorMessage;
    Response(status, Failure(message))
  }
}
