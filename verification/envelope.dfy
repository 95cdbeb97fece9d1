/** Error kinds and the failure-compatible wrappers every handler of the
    decision layer returns. The kinds are the envelope error types the
    handlers put on the wire; only the kind matters to the model, not the
    message or the HTTP status code. */
module Envelope {

  datatype ErrorKind =
    | InputError
    | PermissionError
    | NotFoundError
    | GeneralError
    | UnauthorizedError

  datatype Option<+T> = None | Some(value: T) {
    function GetOr(default: T): T {
      match this
      case Some(v) => v
      case None => default
    }
  }

  /** The outcome of an operation that yields a value or fails with a kind. */
  datatype Result<+T> = Ok(value: T) | Err(kind: ErrorKind) {
    predicate IsFailure() {
      Err?
    }

    function PropagateFailure<U>(): Result<U>
      requires Err?
    {
      Err(kind)
    }

    function Extract(): T
      requires Ok?
    {
      value
    }
  }

  /** The outcome of a collaborator call that yields no value (a write). */
  datatype Outcome = Pass | Fail(kind: ErrorKind) {
    predicate IsFailure() {
      Fail?
    }

    function PropagateFailure<U>(): Result<U>
      requires Fail?
    {
      Err(kind)
    }
  }

  /** What a single-row SQL read can produce: the row, `sql.ErrNoRows`, or any
      other driver failure. */
  datatype QueryRow<+T> = Row(row: T) | NoRows | QueryFailed
}
