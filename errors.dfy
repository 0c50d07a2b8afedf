// The exceptions the API raises, with the HTTP statuses and codes they carry.
module Errors {
  import opened Wrappers

  const StatusBadRequest: int := 400
  const StatusUnauthorized: int := 401
  const StatusForbidden: int := 403
  const StatusInternalServerError: int := 500

  /** A thrown exception: a `DomainException` with its optional code and status, an
      `ArgumentException` (or one of its subclasses) naming the offending parameter, or
      any other exception of the runtime. */
  datatype Exception =
    | DomainException(message: string, code: Option<string>, httpStatus: Option<int>)
    | ArgumentError(paramName: Option<string>, message: string)
    | SystemException(message: string)

  /** `EnsureOwnership`'s failure. */
  const ListForbidden: Exception :=
    DomainException("Acc\U{00E8}s refus\U{00E9} \U{00E0} cette liste.", Some("LIST_FORBIDDEN"), Some(StatusForbidden))

  /** `CreateAsync`'s failure when the caller has no user id. */
  const AuthRequired: Exception :=
    DomainException("Utilisateur non authentifi\U{00E9}.", Some("AUTH_REQUIRED"), Some(StatusUnauthorized))

  /** `ToDictionary` meeting the same key twice. */
  const DuplicateKey: Exception :=
    ArgumentError(None, "An item with the same key has already been added.")
}
