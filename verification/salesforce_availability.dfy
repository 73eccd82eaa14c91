/** Salesforce's availability check: how an HTTP error met while probing a
    stream decides whether the stream is available. */
module SalesforceAvailability {
  import opened Wrappers
  import opened Dicts
  import opened Json

  const Forbidden := 403
  const BadRequest := 400
  const RequestLimitExceeded := "REQUEST_LIMIT_EXCEEDED"
  const InvalidTypeForOperation := "INVALID_TYPE_FOR_OPERATION"

  /** The decoded error body: Salesforce sends a list of error objects,
      but any JSON value can arrive. */
  type ErrorBody = Value

  datatype Outcome =
    | Checked(available: bool, reason: Option<string>)
    | Reraised                  // the original HTTP error propagates
    | NoFirstError              // `error.json()[0]` raises IndexError, KeyError or TypeError
    | NotAnObject               // `error_data.get` raises AttributeError

  /** `body[0]`: the first element of a list, or the first character of a
      string; `None` where indexing raises (an empty list or string, an
      object, whose keys are never the integer 0, a number, a boolean or
      `null`). */
  function FirstError(body: ErrorBody): (r: Option<Value>)
    ensures body.JArr? ==> r == if |body.items| > 0 then Some(body.items[0]) else None
    ensures body.JStr? ==> (r.Some? <==> |body.s| > 0)
    ensures !body.JArr? && !body.JStr? ==> r.None?
    ensures r.Some? && !body.JArr? ==> !r.value.JObj?
  {
    match body
    case JArr(items) => if |items| > 0 then Some(items[0]) else None
    case JStr(s) => if |s| > 0 then Some(JStr(s[..1])) else None
    case _ => None
  }

  /** `error_data.get("errorCode", "")`. */
  function ErrorCode(errorData: Value): Value
  {
    Field(errorData, "errorCode").GetOr(JStr(""))
  }

  function Reason(stream: string, errorData: Value): string
  {
    "Cannot receive data for stream '" + stream + "', error message: '" + Str(Field(errorData, "message").GetOr(JNull)) + "'"
  }

  /** The condition as written: the code is not the rate limit, or it is
      the unsupported-query code. */
  predicate Unavailable(code: Value)
  {
    code != JStr(RequestLimitExceeded) || code == JStr(InvalidTypeForOperation)
  }

  /** `handle_http_error`. */
  function HandleHttpError(stream: string, status: int, body: ErrorBody): (r: Outcome)
    ensures r == Reraised <==> status != Forbidden && status != BadRequest
    ensures r == NoFirstError <==> (status == Forbidden || status == BadRequest) && FirstError(body).None?
    ensures r == NotAnObject <==>
      (status == Forbidden || status == BadRequest) && FirstError(body).Some? && !FirstError(body).value.JObj?
    ensures r.Checked? ==> body.JArr? && |body.items| > 0 && body.items[0].JObj?
    ensures r.Checked? ==> (r.available <==> ErrorCode(body.items[0]) == JStr(RequestLimitExceeded))
    ensures r.Checked? ==> (r.reason.None? <==> r.available)
    ensures r.Checked? && !r.available ==> r.reason == Some(Reason(stream, body.items[0]))
  {
    if status == Forbidden || status == BadRequest then
      match FirstError(body)
      case None => NoFirstError
      case Some(errorData) =>
        if !errorData.JObj? then NotAnObject
        else if Unavailable(ErrorCode(errorData)) then Checked(false, Some(Reason(stream, errorData)))
        else Checked(true, None)
    else Reraised
  }

  /** The second disjunct adds nothing: the decision depends only on
      whether the code is the rate-limit code. */
  lemma InvalidTypeDisjunctRedundant(code: Value)
    ensures Unavailable(code) <==> code != JStr(RequestLimitExceeded)
  {
  }

  /** An error without `errorCode` makes the stream unavailable when it is
      an object, and raises AttributeError when it is not. */
  lemma MissingCodeUnavailable(stream: string, status: int, body: ErrorBody)
    requires status == Forbidden || status == BadRequest
    requires FirstError(body).Some? && Field(FirstError(body).value, "errorCode").None?
    ensures var errorData := FirstError(body).value;
      HandleHttpError(stream, status, body)
        == if errorData.JObj? then Checked(false, Some(Reason(stream, errorData))) else NotAnObject
  {
  }
}
