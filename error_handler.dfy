/**
 * The terminal error middleware and the 404 fallback. The reply status keeps
 * a status already set on the response unless it is unset or 200, in which
 * case it is 500; the body shows the error only in development.
 */
module ErrorHandler {
  import opened Wrappers
  import opened Http

  const GenericMessage := "An error occurred while processing your request"

  /** A thrown `Error`: its message and, when the runtime recorded one, its stack. */
  datatype JsError = JsError(message: string, stack: Option<string>)

  /** `process.env.NODE_ENV === 'development'` */
  predicate IsDevelopment(nodeEnv: Option<string>) {
    nodeEnv == Some("development")
  }

  /** `errorHandler(err, req, res, next)`, given `res.statusCode` as it stands
      and the runtime mode. Logging is not modelled. */
  function Handle(err: JsError, statusCode: int, nodeEnv: Option<string>): (r: Response)
    // never a success status: an existing error status is kept, otherwise 500
    ensures r.status != 200 && r.status != 0
    ensures statusCode != 0 && statusCode != 200 ==> r.status == statusCode
    ensures statusCode == 0 || statusCode == 200 ==> r.status == 500
    ensures r.payload.Message? && !r.payload.success
    // development shows the error and its stack
    ensures IsDevelopment(nodeEnv) ==> r.payload.message == err.message && r.payload.stack == err.stack
    // any other mode shows the fixed message and no stack key
    ensures !IsDevelopment(nodeEnv) ==> r.payload.message == GenericMessage && r.payload.stack.None?
  {
    var status := if statusCode != 0 && statusCode != 200 then statusCode else 500;
    var isDevelopment := IsDevelopment(nodeEnv);
    Response(status, Message(false, if isDevelopment then err.message else GenericMessage,
                             if isDevelopment then err.stack else None))
  }

  /** Outside development the reply does not depend on the error at all. */
  lemma ProductionRevealsNothing(e1: JsError, e2: JsError, statusCode: int, nodeEnv: Option<string>)
    requires !IsDevelopment(nodeEnv)
    ensures Handle(e1, statusCode, nodeEnv) == Handle(e2, statusCode, nodeEnv)
  {
  }

  /** An error a controller passes to `next(error)` before setting any status
      (the response still at its default 200) is answered 500. */
  lemma ControllerErrorIsServerError(err: JsError, nodeEnv: Option<string>)
    ensures Handle(err, 200, nodeEnv).status == 500
  {
  }

  /** `notFound(req, res, next)`: the status it sets and the error it passes on. */
  datatype Forwarded = Forwarded(statusCode: int, error: JsError)

  function NotFound(originalUrl: string, stack: Option<string>): (f: Forwarded)
    ensures f.statusCode == 404
    ensures f.error.message == "Not Found - " + originalUrl
  {
    Forwarded(404, JsError("Not Found - " + originalUrl, stack))
  }

  /** An unmatched route ends in a 404 from the error handler, naming the URL
      in development. */
  lemma UnmatchedRouteIs404(originalUrl: string, stack: Option<string>, nodeEnv: Option<string>)
    ensures var f := NotFound(originalUrl, stack);
      var r := Handle(f.error, f.statusCode, nodeEnv);
      r.status == 404 &&
      (IsDevelopment(nodeEnv) ==> r.payload.message == "Not Found - " + originalUrl)
  {
  }
}
