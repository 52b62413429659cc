/**
 * The API error type of internal/errors/errors.go: a status, a machine code,
 * a message and optional details, with one constructor per HTTP failure the
 * server reports, and the rule that picks the status written for any Go
 * `error`.
 */
module ApiErrors {
  import opened Wrappers
  import opened JsonValues

  const StatusBadRequest: int := 400
  const StatusUnauthorized: int := 401
  const StatusForbidden: int := 403
  const StatusNotFound: int := 404
  const StatusInternalServerError: int := 500
  const StatusNotImplemented: int := 501

  /** APIError; `details` is None where the source passes nil. */
  datatype ApiError = ApiError(message: string, code: string, details: Option<Json>, status: int)

  /**
   * A Go `error` value as far as the server inspects it: an APIError, the
   * standard library's ErrNotSupported sentinel, any other error with its
   * text, or an error wrapped with `fmt.Errorf("prefix: %w", inner)`.
   */
  datatype GoError =
    | Api(e: ApiError)
    | NotSupported
    | Plain(text: string)
    | Wrapped(prefix: string, inner: GoError)

  /** The text of `err.Error()`. */
  function Message(err: GoError): string
  {
    match err
    case Api(e) => Error(e)
    case NotSupported => "feature not supported"
    case Plain(text) => text
    case Wrapped(prefix, inner) => prefix + ": " + Message(inner)
  }

  /** errors.As(err, &apiErr): the first APIError along the wrapping chain. */
  function AsApiError(err: GoError): (r: Option<ApiError>)
    ensures err.Api? ==> r == Some(err.e)
    ensures err.NotSupported? || err.Plain? ==> r.None?
  {
    match err
    case Api(e) => Some(e)
    case Wrapped(_, inner) => AsApiError(inner)
    case _ => None
  }

  /** errors.Is(err, http.ErrNotSupported). */
  predicate IsNotSupported(err: GoError)
  {
    match err
    case NotSupported => true
    case Wrapped(_, inner) => IsNotSupported(inner)
    case _ => false
  }

  /** (*APIError).Error: the message. */
  function Error(e: ApiError): (m: string)
    ensures m == e.message
  {
    e.message
  }

  function New(status: int, code: string, message: string, details: Option<Json>): (e: ApiError)
    ensures e.status == status && e.code == code && Error(e) == message && e.details == details
  {
    ApiError(message, code, details, status)
  }

  /** A 400 carrying the per-field complaints in `details`. */
  function Validation(details: Json): (e: ApiError)
    ensures e.status == StatusBadRequest && e.code == "VALIDATION_ERROR"
    ensures Error(e) == "Invalid input" && e.details == Some(details)
  {
    New(StatusBadRequest, "VALIDATION_ERROR", "Invalid input", Some(details))
  }

  /** Validation details naming one field and what is wrong with it. */
  function FieldProblem(field: string, problem: string): (j: Json)
    ensures j.JObject? && j.fields == map[field := JString(problem)]
  {
    JObject(map[field := JString(problem)])
  }

  /** `message`, or `fallback` when `message` is empty. */
  function OrDefault(message: string, fallback: string): (m: string)
    ensures message != "" ==> m == message
    ensures message == "" ==> m == fallback
  {
    if message == "" then fallback else message
  }

  function Unauthorized(message: string): (e: ApiError)
    ensures e.status == StatusUnauthorized && e.code == "unauthorized" && e.details.None?
    ensures Error(e) == OrDefault(message, "Unauthorized: missing or invalid token")
  {
    New(StatusUnauthorized, "unauthorized", OrDefault(message, "Unauthorized: missing or invalid token"), None)
  }

  function Forbidden(message: string): (e: ApiError)
    ensures e.status == StatusForbidden && e.code == "forbidden" && e.details.None?
    ensures Error(e) == OrDefault(message, "Forbidden")
  {
    New(StatusForbidden, "forbidden", OrDefault(message, "Forbidden"), None)
  }

  function NotFound(message: string): (e: ApiError)
    ensures e.status == StatusNotFound && e.code == "NOT_FOUND" && e.details.None?
    ensures Error(e) == OrDefault(message, "Not found")
  {
    New(StatusNotFound, "NOT_FOUND", OrDefault(message, "Not found"), None)
  }

  function NotImplemented(message: string): (e: ApiError)
    ensures e.status == StatusNotImplemented && e.code == "NOT_IMPLEMENTED" && e.details.None?
    ensures Error(e) == OrDefault(message, "Not implemented")
  {
    New(StatusNotImplemented, "NOT_IMPLEMENTED", OrDefault(message, "Not implemented"), None)
  }

  /** A 500 whose message is the wrapped error's text, or "Internal error" for nil. */
  function Internal(err: Option<GoError>): (e: ApiError)
    ensures e.status == StatusInternalServerError && e.code == "INTERNAL_ERROR" && e.details.None?
    ensures err.None? ==> Error(e) == "Internal error"
    ensures err.Some? ==> Error(e) == Message(err.value)
  {
    if err.None? then New(StatusInternalServerError, "INTERNAL_ERROR", "Internal error", None)
    else New(StatusInternalServerError, "INTERNAL_ERROR", Message(err.value), None)
  }

  /** The APIError that Write encodes for `err` (nil included). */
  function Written(err: Option<GoError>): (e: ApiError)
  {
    if err.Some? && AsApiError(err.value).Some? then AsApiError(err.value).value else Internal(err)
  }

  /** The status line Write sends. */
  function WriteStatus(err: Option<GoError>): (status: int)
  {
    Written(err).status
  }

  /** The fixed-default constructors never produce an empty message. */
  lemma DefaultMessagesNonEmpty(message: string, err: Option<GoError>)
    ensures Error(Unauthorized(message)) != "" && Error(Forbidden(message)) != ""
    ensures Error(NotFound(message)) != "" && Error(NotImplemented(message)) != ""
    ensures Error(Internal(None)) != ""
  {
  }

  /**
   * Write keeps an APIError's own status, even when it is wrapped, and
   * answers 500 for everything else, nil included.
   */
  lemma {:induction false} WriteStatusSelection(err: Option<GoError>)
    ensures err.Some? && err.value.Api? ==> WriteStatus(err) == err.value.e.status
    ensures (err.Some? && err.value.Wrapped? ==> WriteStatus(err) == WriteStatus(Some(err.value.inner)))
    ensures err.None? || err.value.Plain? || err.value.NotSupported? ==> WriteStatus(err) == StatusInternalServerError
    ensures err.None? ==> Error(Written(err)) == "Internal error"
  {
    if err.Some? && err.value.Wrapped? {
      var inner := err.value.inner;
      if AsApiError(inner).None? {
        assert Written(Some(inner)) == Internal(Some(inner));
      }
    }
  }

  /** An error without an APIError in its chain is reported as a 500 carrying its own text. */
  lemma WriteWrapsOtherErrors(err: GoError)
    requires AsApiError(err).None?
    ensures Written(Some(err)).status == StatusInternalServerError
    ensures Error(Written(Some(err))) == Message(err)
  {
  }

  /** Every constructor's error reaches the client with its own status. */
  lemma ConstructorsKeepStatus(message: string, details: Json)
    ensures WriteStatus(Some(Api(Validation(details)))) == 400
    ensures WriteStatus(Some(Api(Unauthorized(message)))) == 401
    ensures WriteStatus(Some(Api(Forbidden(message)))) == 403
    ensures WriteStatus(Some(Api(NotFound(message)))) == 404
    ensures WriteStatus(Some(Api(NotImplemented(message)))) == 501
    ensures WriteStatus(Some(Api(Internal(None)))) == 500
  {
  }
}
