/** The Express error handler and the reply envelope of the controllers. */
module ErrorHandler {
  import opened Wrappers
  import opened Errors

  /** What reaches the handler: the error's optional `statusCode`, `message` and `stack`. */
  datatype ThrownError = ThrownError(statusCode: Option<int>, message: string, stack: string)

  datatype ErrorResponse = ErrorResponse(status: int, success: bool, message: string, stack: Option<string>)

  /** `err.statusCode ||`: absent and 0 are falsy. */
  predicate TruthyCode(code: Option<int>)
  {
    code.Some? && code.value != 0
  }

  /** `errorHandler`: status from the error, else from the response unless it is
      still 200, else 500; the message defaults to "Server Error"; the stack is
      shown outside production only. */
  function HandleError(err: ThrownError, resStatus: int, nodeEnv: Option<string>): (r: ErrorResponse)
    ensures !r.success
    ensures TruthyCode(err.statusCode) ==> r.status == err.statusCode.value
    ensures !TruthyCode(err.statusCode) && resStatus != 200 ==> r.status == resStatus
    ensures !TruthyCode(err.statusCode) && resStatus == 200 ==> r.status == 500
    ensures err.message != "" ==> r.message == err.message
    ensures err.message == "" ==> r.message == "Server Error"
    ensures r.stack.Some? <==> nodeEnv != Some("production")
    ensures r.stack.Some? ==> r.stack.value == err.stack
  {
    var status := if TruthyCode(err.statusCode) then err.statusCode.value
                  else if resStatus != 200 then resStatus else 500;
    ErrorResponse(
      status,
      false,
      if err.message == "" then "Server Error" else err.message,
      if nodeEnv == Some("production") then None else Some(err.stack))
  }

  /** A controller's reply: success with a status and payload, or failure with a status and message. */
  datatype Reply<+T> = Ok(status: int, data: T) | Err(status: int, message: string) {
    predicate Success()
    {
      Ok?
    }
  }

  /** A list reply carries the number of records it returns. */
  datatype ListReply<+T> = ListReply(status: int, count: nat, data: seq<T>)

  /** A service error thrown inside a controller: `asyncHandler` hands it to the
      error handler while the response status is still 200. */
  function Thrown<T>(e: ServiceError, nodeEnv: Option<string>): Reply<T>
  {
    var h := HandleError(ThrownError(None, Message(e), ""), 200, nodeEnv);
    Err(h.status, h.message)
  }

  /** Service errors carry no status code, so every one of them, "not found" and
      "not authorized" included, reaches the client as 500 with its message. */
  lemma ServiceErrorsAre500<T>(e: ServiceError, nodeEnv: Option<string>)
    ensures Thrown<T>(e, nodeEnv) == Err(500, Message(e))
  {
  }
}
