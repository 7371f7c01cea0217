/** The global error handler (src/middleware/error.middleware.js). */
module ErrorMiddleware {
  import opened Wrappers
  import opened ApiErrors

  const DefaultStatus := 500
  const DefaultMessage := "Internal Server Error"

  /** `parts.join(sep)`. */
  function Join(parts: seq<string>, sep: string): (r: string)
    ensures parts == [] ==> r == ""
    ensures |parts| == 1 ==> r == parts[0]
  {
    if parts == [] then ""
    else if |parts| == 1 then parts[0]
    else parts[0] + sep + Join(parts[1..], sep)
  }

  /** Joining one more part appends the separator and that part. */
  lemma {:induction false} JoinAppend(parts: seq<string>, last: string, sep: string)
    requires parts != []
    ensures Join(parts + [last], sep) == Join(parts, sep) + sep + last
  {
    if |parts| > 1 {
      assert (parts + [last])[1..] == parts[1..] + [last];
      JoinAppend(parts[1..], last, sep);
    }
  }

  /** The `statusCode` property as the handler reads it. */
  function StatusProperty(err: Error): Option<int> {
    match err
    case ApiError(code, _) => Some(code)
    case Thrown(_, _, code, _, _, _) => code
  }

  /**
   * The status code and message the handler settles on: the defaults first,
   * then the `ValidationError` and `CastError` overrides, and an `ApiError`
   * last of all.
   */
  function StatusAndMessage(err: Error): (r: (int, string))
    ensures err.ApiError? ==> r == (err.statusCode, err.message)
    ensures err.Thrown? && err.name == "ValidationError" ==> r == (400, Join(err.subMessages, ", "))
    ensures err.Thrown? && err.name == "CastError" ==> r == (400, "Invalid " + err.path + ": " + err.value)
    ensures err.Thrown? && err.name != "ValidationError" && err.name != "CastError" ==>
      r.0 == (if err.status.Some? && err.status.value != 0 then err.status.value else DefaultStatus) &&
      r.1 == (if err.message != "" then err.message else DefaultMessage)
  {
    var code := StatusProperty(err);
    var statusCode := if code.Some? && code.value != 0 then code.value else DefaultStatus;
    var message := if err.message != "" then err.message else DefaultMessage;
    var (statusCode, message) :=
      if err.Thrown? && err.name == "ValidationError" then (400, Join(err.subMessages, ", "))
      else (statusCode, message);
    var (statusCode, message) :=
      if err.Thrown? && err.name == "CastError" then (400, "Invalid " + err.path + ": " + err.value)
      else (statusCode, message);
    if err.ApiError? then (err.statusCode, err.message) else (statusCode, message)
  }

  /** What the handler sends: the chosen status, and an `ApiResponse` with null data. */
  datatype Response = Response(status: int, body: ApiResponse<()>)

  /** The handler: it always answers and never passes the error on. */
  function HandleError(err: Error): (r: Response)
    ensures r.status == r.body.statusCode && r.body.data.None?
    ensures (r.status, r.body.message) == StatusAndMessage(err)
  {
    var (statusCode, message) := StatusAndMessage(err);
    Response(statusCode, ApiResponse(statusCode, None, message))
  }

  /** An error that is not an `ApiError` never answers with a zero (falsy) status. */
  lemma ThrownStatusIsNonZero(err: Error)
    requires err.Thrown?
    ensures HandleError(err).status != 0
    ensures HandleError(err).status == 400 || HandleError(err).status == DefaultStatus
      || HandleError(err).status == err.status.value
  {
  }

  /** A `ValidationError` with no sub-errors overwrites the default with an empty message. */
  lemma EmptyValidationErrorHasEmptyMessage(message: string, code: Option<int>)
    ensures HandleError(Thrown("ValidationError", message, code, [], "", "")) ==
      Response(400, ApiResponse(400, None, ""))
  {
  }

  /** Two or more sub-errors are reported in order, separated by ", ". */
  lemma ValidationMessagesJoined(parts: seq<string>, last: string)
    requires parts != []
    ensures HandleError(Thrown("ValidationError", "", None, parts + [last], "", "")).body.message ==
      Join(parts, ", ") + ", " + last
  {
    JoinAppend(parts, last, ", ");
  }
}
