/** Optional values and results that carry the error a step of the source raises. */
module Wrappers {

  datatype Option<+T> = None | Some(value: T)

  /** The exception classes of the persistence layer, `src/conversation_agent/database/errors.py`,
      and the `RuntimeError` of a unit of work that is not active. */
  datatype Error =
    | WriteFailed
    | DuplicateRequest
    | PersistenceConflict
    | RequestNotFound
    | InvalidTransition
    | FingerprintVersion
    | OwnershipLost
    | InvalidState
    | SnapshotRejected
    | SnapshotVersionUnsupported
    | UnitOfWorkInactive

  datatype Result<+T> = Ok(value: T) | Err(error: Error) {

    predicate IsFailure() {
      Err?
    }

    function PropagateFailure<U>(): Result<U>
      requires Err?
    {
      Err(error)
    }

    function Extract(): T
      requires Ok?
    {
      value
    }
  }
}
