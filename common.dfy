/** Values shared by every handler: optional values, callable results and the
    error codes a callable function can raise, the caller's identity, and the
    loosely typed request arguments the handlers inspect with `typeof`. */
module Common {

  datatype Option<+T> = None | Some(value: T)

  /** The error codes (`HttpsError` codes) the core's callable functions raise. */
  datatype ErrorCode =
    | Unauthenticated
    | InvalidArgument
    | NotFound
    | PermissionDenied
    | AlreadyExists
    | FailedPrecondition
    | Internal

  /** A callable's outcome: its return value, or the `HttpsError` it throws. */
  datatype Result<+T> = Ok(value: T) | Err(code: ErrorCode)

  /** Firebase Auth user ids are never empty. */
  type Uid = s: string | |s| > 0 witness "u"

  /** `request.auth`: absent for anonymous callers; otherwise the uid and the
      token's email ("" when the token carries none). */
  datatype Auth = Anonymous | SignedIn(uid: Uid, email: string)

  /** A request field as JavaScript sees it: missing, a string, or some other
      value of which only its truthiness matters to the handlers. */
  datatype Arg = Absent | Text(s: string) | Other(truthy: bool)

  /** JavaScript truthiness of a request field. */
  predicate Truthy(a: Arg)
  {
    match a
    case Absent => false
    case Text(s) => s != ""
    case Other(t) => t
  }
}
