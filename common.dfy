/** Types shared by every component: optional values, identities, roles and
    the errors the controllers raise. */
module Common {

  datatype Option<+T> = None | Some(value: T)

  /** Identifiers of stored documents (Mongo ObjectIds), abstracted to naturals. */
  type UserId = nat
  type EventId = nat

  /** The two user roles; a user document always carries one of them. */
  datatype Role = Organizer | Attendee

  function RoleName(r: Role): string
  {
    match r
    case Organizer => "organizer"
    case Attendee => "attendee"
  }

  /** The authenticated caller that the authentication middleware attaches to the request. */
  datatype Principal = Principal(id: UserId, role: Role)

  /** The operational error classes the controllers and middleware throw. */
  datatype ErrorKind =
    | ValidationError
    | AuthenticationError
    | AuthorizationError
    | NotFoundError
    | ConflictError

  /** The HTTP status each operational error class carries. */
  function StatusCode(k: ErrorKind): (code: int)
    ensures 400 <= code < 500
    ensures code == 400 <==> k == ValidationError
    ensures code == 401 <==> k == AuthenticationError
    ensures code == 403 <==> k == AuthorizationError
    ensures code == 404 <==> k == NotFoundError
    ensures code == 409 <==> k == ConflictError
  {
    match k
    case ValidationError => 400
    case AuthenticationError => 401
    case AuthorizationError => 403
    case NotFoundError => 404
    case ConflictError => 409
  }

  datatype AppError = AppError(kind: ErrorKind, message: string)

  /** Everything a controller can throw: an operational error, a schema
      validation error reported by the document store (one message per
      offending path), a malformed document id, or a JavaScript run-time
      error (a property read on `undefined`). */
  datatype Failure =
    | App(err: AppError)
    | SchemaInvalid(messages: seq<string>)
    | InvalidObjectId
    | Crash

  datatype Result<+T> = Ok(value: T) | Err(failure: Failure)
}
