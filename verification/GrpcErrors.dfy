/** Errors as the driver sees them and their translation into gRPC status codes. */
module GrpcErrors {

  datatype Option<+T> = None | Some(value: T)

  datatype Result<+T> = Ok(value: T) | Err(error: Error)

  datatype Code =
    | OK | Canceled | Unknown | InvalidArgument | DeadlineExceeded | NotFound | AlreadyExists
    | PermissionDenied | ResourceExhausted | FailedPrecondition | Aborted | OutOfRange
    | Unimplemented | Internal | Unavailable | DataLoss | Unauthenticated

  /** A message, reduced to the substrings the driver looks for in it: "Timeout", "Error", "Fail",
      "ResourceNotFound" and the quota sentence of Azure. */
  datatype Message = Message(timeout: bool, error: bool, fail: bool, missing: bool, quota: bool)

  const PLAIN := Message(false, false, false, false, false)

  /** An error by the first test it passes: a gRPC status, an expired context, an HTTP response
      error of the Azure SDK with its ErrorCode field, anything else. */
  datatype AnyError =
    | Status(code: Code, text: Message)
    | ContextExpired(text: Message)
    | Http(statusCode: int, errorCode: Message, text: Message)
    | Other(text: Message)

  /** No status error carries OK: status.Error(codes.OK, ...) is the nil error. */
  predicate Proper(e: AnyError)
  {
    e.Status? ==> e.code != OK
  }

  type Error = e: AnyError | Proper(e) witness Other(PLAIN)

  /** The errors the driver makes itself. */
  const INTERNAL: Error := Status(Internal, PLAIN)
  const INVALID: Error := Status(InvalidArgument, PLAIN)
  const ABORTED: Error := Status(Aborted, PLAIN)
  const EXHAUSTED: Error := Status(ResourceExhausted, PLAIN)
  const NO_SUBNET: Error := Status(FailedPrecondition, PLAIN)

  /** status.Error and status.Errorf. */
  function StatusError(code: Code, text: Message): Option<Error>
  {
    if code == OK then None else Some(Status(code, text))
  }

  /** status.Code of a non-nil error. */
  function CodeOf(e: Error): Code
  {
    if e.Status? then e.code else Unknown
  }

  function Merge(a: Message, b: Message): Message
  {
    Message(a.timeout || b.timeout, a.error || b.error, a.fail || b.fail, a.missing || b.missing, a.quota || b.quota)
  }

  function HttpCode(statusCode: int, quota: bool): Code
  {
    if 400 <= statusCode < 500 then
      if statusCode == 409 then (if quota then ResourceExhausted else InvalidArgument)
      else if statusCode == 404 then NotFound
      else if statusCode == 403 then PermissionDenied
      else if statusCode == 401 then Unauthenticated
      else if statusCode == 429 then Unavailable
      else InvalidArgument
    else if statusCode >= 500 then
      if statusCode == 500 then Internal
      else if statusCode == 502 || statusCode == 503 then Unavailable
      else if statusCode == 504 then DeadlineExceeded
      else Unknown
    else
      Unknown
  }

  /** convertHTTPResponseErrorToGrpcCodeError. */
  function Convert(err: Option<Error>): Option<Error>
  {
    match err
    case None => None
    case Some(Status(_, _)) => err
    case Some(ContextExpired(text)) => StatusError(DeadlineExceeded, text)
    case Some(Other(text)) => StatusError(Unknown, text)
    case Some(Http(statusCode, errorCode, text)) =>
      if statusCode < 400 && (errorCode.error || errorCode.timeout || errorCode.fail) then
        StatusError(DeadlineExceeded, Merge(errorCode, text))
      else
        StatusError(HttpCode(statusCode, text.quota), text)
  }

  /** The status error a non-nil error becomes. */
  function Converted(e: Error): (c: Error)
    ensures c.Status? && Convert(Some(e)) == Some(c)
    ensures Convert(Some(c)) == Some(c)
  {
    Convert(Some(e)).value
  }

  /** The last rewrapping, in CreateVolume and DeleteVolume: the code is read back and a new status
      error is made with it. */
  function Rewrap(e: Error): (r: Option<Error>)
    ensures r.Some? && CodeOf(r.value) == CodeOf(e)
  {
    StatusError(CodeOf(e), e.text)
  }

  /** One call of the conversion by each layer an error passes through. */
  function ConvertTimes(err: Option<Error>, layers: nat): Option<Error>
    decreases layers
  {
    if layers == 0 then err else ConvertTimes(Convert(err), layers - 1)
  }

  /** However many layers convert an error, and after the final rewrapping, the caller gets a non-nil
      error whose code is the one the first conversion chose, and never OK. */
  lemma {:induction false} ClassificationIsStable(e: Error, layers: nat)
    requires layers >= 1
    ensures Convert(Convert(Some(e))) == Convert(Some(e))
    ensures ConvertTimes(Some(e), layers) == Some(Converted(e))
    ensures var last := ConvertTimes(Some(e), layers).value;
            Rewrap(last).Some? && CodeOf(Rewrap(last).value) == Converted(e).code != OK
    decreases layers
  {
    var c := Converted(e);
    assert Convert(Some(c)) == Some(c);
    if layers > 1 {
      ClassificationIsStable(c, layers - 1);
    } else {
      assert ConvertTimes(Some(e), 1) == ConvertTimes(Convert(Some(e)), 0);
    }
  }

  /** The code and the text of every kind of error, HTTP status by HTTP status. */
  lemma CodesAreThese(e: Error)
    ensures e.Status? ==> Converted(e) == e
    ensures e.ContextExpired? ==> Converted(e) == Status(DeadlineExceeded, e.text)
    ensures e.Other? ==> Converted(e) == Status(Unknown, e.text)
    ensures e.Http? && e.statusCode >= 400 ==> Converted(e).text == e.text
    ensures e.Http? && e.statusCode == 401 ==> Converted(e).code == Unauthenticated
    ensures e.Http? && e.statusCode == 403 ==> Converted(e).code == PermissionDenied
    ensures e.Http? && e.statusCode == 404 ==> Converted(e).code == NotFound
    ensures e.Http? && e.statusCode == 409 ==>
              Converted(e).code == if e.text.quota then ResourceExhausted else InvalidArgument
    ensures e.Http? && e.statusCode == 429 ==> Converted(e).code == Unavailable
    ensures e.Http? && 400 <= e.statusCode < 500 && e.statusCode !in {401, 403, 404, 409, 429} ==>
              Converted(e).code == InvalidArgument
    ensures e.Http? && e.statusCode == 500 ==> Converted(e).code == Internal
    ensures e.Http? && e.statusCode in {502, 503} ==> Converted(e).code == Unavailable
    ensures e.Http? && e.statusCode == 504 ==> Converted(e).code == DeadlineExceeded
    ensures e.Http? && e.statusCode >= 500 && e.statusCode !in {500, 502, 503, 504} ==> Converted(e).code == Unknown
    ensures e.Http? && e.statusCode < 400 ==>
              var marked := e.errorCode.timeout || e.errorCode.error || e.errorCode.fail;
              && Converted(e).code == (if marked then DeadlineExceeded else Unknown)
              && Converted(e).text.timeout == (e.text.timeout || (marked && e.errorCode.timeout))
              && Converted(e).text.error == (e.text.error || (marked && e.errorCode.error))
              && Converted(e).text.fail == (e.text.fail || (marked && e.errorCode.fail))
  {
  }

  /** The codes of the errors the driver makes itself. */
  lemma OwnCodes()
    ensures CodeOf(INTERNAL) == Internal && CodeOf(INVALID) == InvalidArgument && CodeOf(ABORTED) == Aborted
    ensures CodeOf(EXHAUSTED) == ResourceExhausted && CodeOf(NO_SUBNET) == FailedPrecondition
    ensures forall e | e in {INTERNAL, INVALID, ABORTED, EXHAUSTED, NO_SUBNET} :: Converted(e) == e
  {
  }

  /** Only these raw errors become DeadlineExceeded, the code that can start a delete and retry. */
  lemma DeadlineExceededCauses(e: Error)
    ensures Converted(e).code == DeadlineExceeded <==>
            || (e.Status? && e.code == DeadlineExceeded)
            || e.ContextExpired?
            || (e.Http? && e.statusCode == 504)
            || (e.Http? && e.statusCode < 400 && (e.errorCode.timeout || e.errorCode.error || e.errorCode.fail))
  {
  }
}
