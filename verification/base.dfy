/** Shared vocabulary: optional values, the errors the service can produce or
    pass along, and the shape of a Go `(value, error)` return. */
module Base {

  /** An optional value; `None` stands for a Go nil pointer, nil slice or SQL NULL. */
  datatype Option<+T> = None | Some(value: T)

  /** The errors that travel through the layers. Errors raised by the database
      are opaque: only their identity matters to the code above them. */
  datatype Error =
    | DbError(detail: string)   // the database could not run a statement
    | ScanNull(column: string)  // a NULL column was scanned into a non-pointer destination
    | InvalidSortBy             // errors.New("invalid sortBy") in the transaction repository
    | BalanceNotFound           // BalanceService.BalanceNotFoundErr

  /** The text `err.Error()` returns for the errors the service defines itself. */
  function ErrorText(e: Error): string
  {
    match e
    case DbError(detail) => detail
    case ScanNull(column) => "cannot scan NULL into " + column
    case InvalidSortBy => "invalid sortBy"
    case BalanceNotFound => "balance not found"
  }

  /** How a call of a stored function failed: the error the driver returned,
      and whether the function had already taken effect when it was reported
      (the connection can drop, or the scan of the answer fail, after the
      commit). */
  datatype Fault = Fault(error: Error, committed: bool)

  /** A Go function result `(value, err)`; on failure `value` is whatever the
      function put next to the error (its zero value, or nil). */
  datatype Ret<T> = Ret(value: T, err: Option<Error>)
}
