/**
 * The parts of an Express request/response pair the middlewares touch: the
 * user id attached to the request, the response written (once written, its
 * headers count as sent), the calls made to `next`, and the error log.
 */
module Http {
  import opened Common
  import opened Store

  datatype JsonValue = JBool(b: bool) | JStr(s: string) | JNull | JErrors(m: map<string, string>)

  /** A written response: its status and its JSON body as ordered key/value pairs. */
  datatype Response = Response(status: int, body: seq<(string, JsonValue)>)

  /**
   * Any thrown value reaching the error handler. An `ApiError` always carries
   * a status and a message; other errors may lack either.
   */
  datatype Thrown = Thrown(statusCode: Option<int>, message: Option<string>, errors: Option<map<string, string>>, stack: string)

  /** The `Thrown` value of an `ApiError`. */
  function FromApiError(e: ApiError, stack: string): (r: Thrown) {
    Thrown(Some(e.statusCode), Some(e.message), e.errors, stack)
  }

  /** One logged error record. */
  datatype ErrorDetails = ErrorDetails(message: Option<string>, stack: string, path: string, httpMethod: string, time: int)

  class Exchange {
    /** `req.userId`, set by the token check. */
    var userId: Option<UserId>
    /** The response written so far, if any. */
    var response: Option<Response>
    /** Each call to `next`, with the error passed to it if any. */
    var forwarded: seq<Option<Thrown>>
    /** What the server has logged for this request. */
    var log: seq<ErrorDetails>

    constructor ()
      ensures userId == None && response == None && forwarded == [] && log == []
    {
      userId, response, forwarded, log := None, None, [], [];
    }

    /** `res.headersSent`. */
    predicate HeadersSent()
      reads this
    {
      response.Some?
    }
  }
}
