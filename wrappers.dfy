/** Optional values and request outcomes shared by every module. */
module Wrappers {

  datatype Option<+T> = None | Some(value: T)

  /** The kinds of failure a request can end in, as the HTTP layer reports them.
      IntegrityError is a constraint violation raised by the database (a 500). */
  datatype Failure =
    | BadRequest
    | NotAuthenticated
    | PermissionDenied
    | NotFound
    | IntegrityError

  datatype Result<+T> = Ok(value: T) | Fail(failure: Failure)
}
