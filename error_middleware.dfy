// `ErrorHandlingMiddleware`: an exception escaping the rest of the pipeline becomes a JSON
// failure envelope with the matching status.
module ErrorHandling {
  import opened Wrappers
  import opened Errors
  import opened Responses

  const JsonContentType: string := "application/json"
  const InternalErrorMessage: string := "Une erreur interne est survenue."

  /** What the middleware writes for an exception: status, message, code and trace id. */
  datatype ErrorReply = ErrorReply(status: int, message: string, code: Option<string>, traceId: string)

  /** `Activity.Current?.Id ?? Guid.NewGuid().ToString()`; the fresh guid is a parameter. */
  function ErrorTraceId(current: Option<Activity>, guid: string): (t: string)
    ensures current.Some? && current.value.id.Some? ==> t == current.value.id.value
    ensures current.None? || current.value.id.None? ==> t == guid
  {
    if current.Some? && current.value.id.Some? then current.value.id.value else guid
  }

  /** The two catch clauses: a domain exception keeps its message and code, with its own
      status or 400; anything else is a 500 with a fixed message and no code. */
  function ErrorFor(ex: Exception, current: Option<Activity>, guid: string): (r: ErrorReply)
    ensures r.traceId == ErrorTraceId(current, guid)
  {
    var traceId := ErrorTraceId(current, guid);
    match ex
    case DomainException(message, code, status) => ErrorReply(status.GetOr(StatusBadRequest), message, code, traceId)
    case _ => ErrorReply(StatusInternalServerError, InternalErrorMessage, None, traceId)
  }

  /** The envelope written for a reply: `ApiResponse.Fail` with the reply's trace id. */
  function ErrorBody(r: ErrorReply, current: Option<Activity>): ApiResponse<()> {
    FailResponse(r.message, r.code, Some(r.traceId), current)
  }

  /** The response as the middleware leaves it: status, content type and the JSON body
      written, if any. */
  class HttpResponse {
    var statusCode: int
    var contentType: Option<string>
    var body: Option<ApiResponse<()>>

    constructor ()
      ensures statusCode == 200 && contentType.None? && body.None?
    {
      statusCode := 200;
      contentType := None;
      body := None;
    }
  }

  /** `WriteErrorResponse`: JSON content type, the status, and a failure envelope. */
  method WriteErrorResponse(response: HttpResponse, status: int, message: string, code: Option<string>,
                            traceId: Option<string>, current: Option<Activity>)
    modifies response
    ensures response.contentType == Some(JsonContentType)
    ensures response.statusCode == status
    ensures response.body == Some(FailResponse(message, code, traceId, current))
  {
    response.contentType := Some(JsonContentType);
    response.statusCode := status;
    response.body := Some(FailResponse(message, code, traceId, current));
  }

  /** `Invoke`: `next` is what the rest of the pipeline did, passing or throwing; a pass
      leaves the response to the pipeline, a throw writes the error reply for it. */
  method Invoke(response: HttpResponse, next: Outcome<Exception>, current: Option<Activity>, guid: string)
    modifies response
    ensures next.Pass? ==> unchanged(response)
    ensures next.Fail? ==>
              var r := ErrorFor(next.error, current, guid);
              && response.statusCode == r.status && response.contentType == Some(JsonContentType)
              && response.body == Some(ErrorBody(r, current))
  {
    if next.Pass? {
      return;
    }
    var traceId := if current.Some? && current.value.id.Some? then current.value.id.value else guid;
    match next.error
    case DomainException(message, code, status) =>
      var s := if status.Some? then status.value else StatusBadRequest;
      WriteErrorResponse(response, s, message, code, Some(traceId), current);
    case _ =>
      WriteErrorResponse(response, StatusInternalServerError, InternalErrorMessage, None, Some(traceId), current);
  }

  /** A domain exception reaches the client with its own message and code, under its own
      status or 400 when it has none. */
  lemma DomainErrorPassesThrough(message: string, code: Option<string>, status: Option<int>, current: Option<Activity>, guid: string)
    ensures var r := ErrorFor(DomainException(message, code, status), current, guid);
      r.message == message && r.code == code
      && (status.Some? ==> r.status == status.value) && (status.None? ==> r.status == 400)
  {
  }

  /** Any other exception is a 500 whose message and code reveal nothing of it. */
  lemma OtherErrorsAreHidden(ex: Exception, other: Exception, current: Option<Activity>, guid: string)
    requires !ex.DomainException? && !other.DomainException?
    ensures ErrorFor(ex, current, guid) == ErrorFor(other, current, guid)
    ensures ErrorFor(ex, current, guid).status == 500 && ErrorFor(ex, current, guid).code.None?
    ensures ErrorFor(ex, current, guid).message == InternalErrorMessage
  {
  }

  /** The body of an error reply is a failure with no data, carrying the reply's message,
      code and trace id: the trace id is always present, so the envelope never falls back
      on the activity's root id. */
  lemma ErrorBodyRules(ex: Exception, current: Option<Activity>, guid: string)
    ensures var r := ErrorFor(ex, current, guid);
      var b := ErrorBody(r, current);
      !b.success && b.data.None? && b.message == Some(r.message) && b.code == r.code
      && b.traceId == Some(ErrorTraceId(current, guid))
  {
    FailRules<()>(ErrorFor(ex, current, guid).message, ErrorFor(ex, current, guid).code,
                  Some(ErrorTraceId(current, guid)), current);
  }

  /** The service errors as the client sees them: a foreign list is a 403 LIST_FORBIDDEN,
      a missing user id on creation a 401 AUTH_REQUIRED, and a duplicate item key a
      plain 500. */
  lemma ServiceErrorStatuses(current: Option<Activity>, guid: string)
    ensures ErrorFor(ListForbidden, current, guid).status == 403
    ensures ErrorFor(ListForbidden, current, guid).code == Some("LIST_FORBIDDEN")
    ensures ErrorFor(AuthRequired, current, guid).status == 401
    ensures ErrorFor(AuthRequired, current, guid).code == Some("AUTH_REQUIRED")
    ensures ErrorFor(DuplicateKey, current, guid).status == 500
    ensures ErrorFor(DuplicateKey, current, guid).code.None?
  {
  }
}
