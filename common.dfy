/** Values shared by every layer of the recipe service: roles, the identity an
    authenticated request carries, and the closed set of error outcomes that the
    HTTP layer turns into status codes. */
module Common {

  datatype Option<T> = None | Some(value: T)

  /** The two roles stored on a user row ('ADMIN' and 'USER'). */
  datatype Role = Admin | User

  /** What authentication attaches to a request: `{userId, email, role}`. */
  datatype Identity = Identity(userId: int, email: string, role: Role)

  /** Every expected failure of the core, one case per status the source uses. */
  datatype Error =
    | Unauthenticated(message: string)
    | Forbidden(message: string)
    | NotFound(message: string)
    | Conflict(message: string)
    | ServerError(message: string)
  {
    /** The HTTP status the source attaches to the failure. */
    function Status(): (s: int)
      ensures s in {401, 403, 404, 409, 500}
      ensures s == 401 <==> Unauthenticated?
      ensures s == 403 <==> Forbidden?
      ensures s == 404 <==> NotFound?
      ensures s == 409 <==> Conflict?
    {
      match this
      case Unauthenticated(_) => 401
      case Forbidden(_) => 403
      case NotFound(_) => 404
      case Conflict(_) => 409
      case ServerError(_) => 500
    }
  }

  datatype Result<T> = Ok(value: T) | Err(error: Error)

  /** JavaScript truthiness of an optional string: absent and "" are falsy. */
  predicate Truthy(s: Option<string>) {
    s.Some? && s.value != ""
  }
}
