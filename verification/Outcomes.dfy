/** Result types shared by every component: pure computations return a `Result`,
    database transactions return an `Attempt`, and the handlers that run them
    against stored rows return an `Outcome`. */
module Outcomes {

  datatype Option<+T> = None | Some(value: T)

  /** A Go `(value, error)` pair. */
  datatype Result<+T, +E> = Ok(value: T) | Err(error: E) {
    predicate IsFailure() { Err? }
    function PropagateFailure<U>(): Result<U, E>
      requires Err?
    {
      Err(error)
    }
    function Extract(): T
      requires Ok?
    {
      value
    }
  }

  /** A database transaction as one atomic step: either it commits and yields the
      whole next state, or it aborts and changes nothing. */
  datatype Attempt<+S, +E> = Commit(state: S) | Abort(error: E) {
    predicate IsFailure() { Abort? }
    function PropagateFailure<U>(): Attempt<U, E>
      requires Abort?
    {
      Abort(error)
    }
    function Extract(): S
      requires Commit?
    {
      state
    }
  }

  /** What a handler reports after its transaction. */
  datatype Outcome<+E> = Pass | Fail(error: E)

  /** The outcome and the state a handler must leave behind, given the transaction
      it stands for and the state it found. */
  ghost predicate Follows<S, E>(tx: Attempt<S, E>, before: S, r: Outcome<E>, after: S) {
    match tx
    case Commit(s) => r == Pass && after == s
    case Abort(e) => r == Fail(e) && after == before
  }
}
