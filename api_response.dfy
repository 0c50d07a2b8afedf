// `ApiResponse`: the envelope of every API answer, with its trace id taken from the
// current activity when the caller gives none.
module Responses {
  import opened Wrappers

  /** The ambient `Activity.Current`, when there is one: its id and its root id. */
  datatype Activity = Activity(id: Option<string>, rootId: Option<string>)

  /** `a ?? b` on optional values. */
  function OrElse<T>(a: Option<T>, b: Option<T>): (r: Option<T>)
    ensures a.Some? ==> r == a
    ensures a.None? ==> r == b
  {
    if a.Some? then a else b
  }

  /** `GetCurrentTraceId`: the current activity's id, else its root id, else nothing. */
  function CurrentTraceId(current: Option<Activity>): (r: Option<string>)
    ensures current.None? ==> r.None?
    ensures current.Some? && current.value.id.Some? ==> r == current.value.id
    ensures current.Some? && current.value.id.None? ==> r == current.value.rootId
  {
    match current
    case None => None
    case Some(a) => OrElse(a.id, a.rootId)
  }

  /** The envelope. The typed variant `ApiResponse<T>` carries the same value in its own
      `Data` property and in the base one, so one datatype stands for both. */
  datatype ApiResponse<D> = ApiResponse(
    success: bool,
    data: Option<D>,
    message: Option<string>,
    code: Option<string>,
    traceId: Option<string>)

  /** The constructor: a missing trace id is taken from the current activity. */
  function Make<D>(success: bool, data: Option<D>, message: Option<string>, code: Option<string>,
                   traceId: Option<string>, current: Option<Activity>): ApiResponse<D>
  {
    ApiResponse(success, data, message, code, OrElse(traceId, CurrentTraceId(current)))
  }

  /** `Ok(data, message)`: a success with no code, traced by the current activity. */
  function OkResponse<D>(data: Option<D>, message: Option<string>, current: Option<Activity>): ApiResponse<D> {
    Make(true, data, message, None, CurrentTraceId(current), current)
  }

  /** `Fail(message, code, traceId)`: a failure with no data; the trace id given, else the
      current activity's. */
  function FailResponse<D>(message: string, code: Option<string>, traceId: Option<string>, current: Option<Activity>): ApiResponse<D> {
    Make(false, None, Some(message), code, OrElse(traceId, CurrentTraceId(current)), current)
  }

  /** The constructor keeps every field it is given, and a trace id it is not given comes
      from the current activity: its id, else its root id. */
  lemma MakeRules<D>(success: bool, data: Option<D>, message: Option<string>, code: Option<string>,
                     traceId: Option<string>, current: Option<Activity>)
    ensures var r := Make(success, data, message, code, traceId, current);
      && r.success == success && r.data == data && r.message == message && r.code == code
      && (traceId.Some? ==> r.traceId == traceId)
      && (traceId.None? && current.Some? && current.value.id.Some? ==> r.traceId == current.value.id)
      && (traceId.None? && current.Some? && current.value.id.None? ==> r.traceId == current.value.rootId)
      && (traceId.None? && current.None? ==> r.traceId.None?)
  {
  }

  /** A success carries its data and message, no code, and the current trace id. */
  lemma OkRules<D>(data: Option<D>, message: Option<string>, current: Option<Activity>)
    ensures var r := OkResponse(data, message, current);
      r.success && r.data == data && r.message == message && r.code.None? && r.traceId == CurrentTraceId(current)
  {
  }

  /** A failure never carries data, always carries its message and code, and keeps a trace
      id given to it; without one it falls back on the activity's id, then its root id. */
  lemma FailRules<D>(message: string, code: Option<string>, traceId: Option<string>, current: Option<Activity>)
    ensures var r := FailResponse<D>(message, code, traceId, current);
      && !r.success && r.data.None? && r.message == Some(message) && r.code == code
      && (traceId.Some? ==> r.traceId == traceId)
      && (traceId.None? && current.None? ==> r.traceId.None?)
      && (traceId.None? && current.Some? ==> r.traceId == OrElse(current.value.id, current.value.rootId))
  {
  }

  /** Success and failure envelopes never coincide. */
  lemma OkIsNotFail<D>(data: Option<D>, okMessage: Option<string>, message: string, code: Option<string>,
                       traceId: Option<string>, current: Option<Activity>)
    ensures OkResponse(data, okMessage, current) != FailResponse(message, code, traceId, current)
  {
  }
}
