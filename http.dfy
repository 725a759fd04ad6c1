/** What a handler answers: a value on success, or the kind of error the
    view reports together with the `errors` dict it puts in the envelope. */
module Http {
  import opened Python
  import Permissions

  datatype FailKind =
    | BadRequest        // 400
    | NotAuthenticated  // 401
    | Forbidden         // 403
    | NotFound          // 404
    | ServerError       // 500, the views' catch-all `except Exception`

  /** `errors` is the field-to-message dict of the response; for 500
      responses the source puts `str(e)` there, which is not modelled and
      is left empty. */
  datatype Failure = Failure(kind: FailKind, errors: map<string, string>)

  type Outcome<T> = Result<T, Failure>

  const FieldRequired := "This field is required"

  function Fail<T>(kind: FailKind, errors: map<string, string>): Outcome<T>
  {
    Err(Failure(kind, errors))
  }

  /** A failure of the catch-all handler: the error text itself is not modelled. */
  function Crash<T>(): Outcome<T>
  {
    Err(Failure(ServerError, map[]))
  }

  /** A denied permission check, as the handler reports it. */
  function Denied(d: Permissions.Decision): (f: Failure)
    requires d.Deny?
    ensures f.kind == NotAuthenticated <==> d.kind == Permissions.NotAuthenticatedError
    ensures f.kind == Forbidden <==> d.kind == Permissions.PermissionDeniedError
  {
    match d.kind
    case NotAuthenticatedError => Failure(NotAuthenticated, map[])
    case PermissionDeniedError => Failure(Forbidden, map[])
  }

  /** How the ORM treats a payload value used as an integer key, in a lookup
      (`objects.get(user_id=v)`) or an assignment (`obj.recipient_id = v`):
      None selects no row (an exact lookup on None is `IS NULL`), anything else
      goes through the field's `int()`, whose failure escapes the handler's
      specific `except` clauses and ends in the catch-all 500. */
  function KeyLookup(v: Value): (r: Outcome<Option<int>>)
    ensures v.Null? ==> r == Ok(None)
    ensures !v.Null? ==> (r.Ok? <==> ToInt(v).Ok?)
    ensures !v.Null? && r.Ok? ==> r.value == Some(ToInt(v).value)
    ensures r.Err? ==> r == Crash()
  {
    if v.Null? then Ok(None)
    else match ToInt(v)
      case Ok(n) => Ok(Some(n))
      case Err(_) => Crash()
  }
}
