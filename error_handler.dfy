/**
 * The application-wide error handler (backend/src/middleware/errorHandler.js):
 * it logs the error, hands it on when a response has already started, and
 * otherwise answers with the error's status and message.
 */
module ErrorHandling {
  import opened Common
  import opened Http

  const DefaultStatus := 500
  const DefaultMessage := "Internal server error!"

  /** `err.statusCode || 500`. */
  function StatusOf(err: Thrown): (r: int) {
    if err.statusCode.Some? && err.statusCode.value != 0 then err.statusCode.value else DefaultStatus
  }

  /** `err.message || "Internal server error!"`. */
  function MessageOf(err: Thrown): (r: string) {
    if Present(err.message) then err.message.value else DefaultMessage
  }

  /** The response written for an error when nothing has been sent yet. */
  function ErrorResponse(err: Thrown): (r: Response) {
    Response(StatusOf(err), [("success", JBool(false)), ("message", JStr(MessageOf(err))),
                             ("errors", if err.errors.Some? then JErrors(err.errors.value) else JNull)])
  }

  method HandleError(x: Exchange, err: Thrown, path: string, httpMethod: string, now: int)
    modifies x`response, x`forwarded, x`log
    ensures x.log == old(x.log) + [ErrorDetails(err.message, err.stack, path, httpMethod, now)]
    ensures old(x.HeadersSent()) ==> x.response == old(x.response) && x.forwarded == old(x.forwarded) + [Some(err)]
    ensures !old(x.HeadersSent()) ==> x.response == Some(ErrorResponse(err)) && x.forwarded == old(x.forwarded)
  {
    var details := ErrorDetails(err.message, err.stack, path, httpMethod, now);
    x.log := x.log + [details];
    if x.HeadersSent() {
      x.forwarded := x.forwarded + [Some(err)];
      return;
    }
    var status := StatusOf(err);
    var message := MessageOf(err);
    x.response := Some(Response(status, [("success", JBool(false)), ("message", JStr(message)),
                                         ("errors", if err.errors.Some? then JErrors(err.errors.value) else JNull)]));
  }

  /**
   * The response: the error's status when it is non-zero, else 500; its
   * message when non-empty, else the default; `success` false; the field
   * errors or null; and never the stack.
   */
  lemma ErrorResponseShape(err: Thrown)
    ensures var r := ErrorResponse(err);
      && (r.status == 500 <==> err.statusCode.None? || err.statusCode.value == 0 || err.statusCode.value == 500)
      && (err.statusCode.Some? && err.statusCode.value != 0 ==> r.status == err.statusCode.value)
      && |r.body| == 3
      && r.body[0] == ("success", JBool(false))
      && r.body[1].0 == "message"
      && (Present(err.message) ==> r.body[1].1 == JStr(err.message.value))
      && (!Present(err.message) ==> r.body[1].1 == JStr("Internal server error!"))
      && r.body[2].0 == "errors"
      && (r.body[2].1 == JNull <==> err.errors.None?)
      && (forall i :: 0 <= i < |r.body| ==> r.body[i].0 != "stack")
  {
  }

  /** Every `ApiError` thrown by a handler is answered with its own status, message and field errors. */
  lemma ApiErrorAnswered(e: ApiError, stack: string)
    requires e.statusCode != 0 && e.message != ""
    ensures ErrorResponse(FromApiError(e, stack)) ==
      Response(e.statusCode, [("success", JBool(false)), ("message", JStr(e.message)),
                              ("errors", if e.errors.Some? then JErrors(e.errors.value) else JNull)])
  {
  }
}
