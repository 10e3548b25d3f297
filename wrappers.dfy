/** Option and Result types, and the exceptions of the chess engine that the model represents as values. */
module Wrappers {

  datatype Option<+T> = None | Some(value: T)

  /** The run-time exceptions the engine can raise on its own data; each is named after the .NET exception. */
  datatype Error =
    | KeyNotFound      // a piece asked for the move table entry of a square that has none
    | IndexOutOfRange  // IsKingInCheck found no King of the side it checks
    | NullReference    // a piece lookup came back empty and was dereferenced
    | InvalidCast      // a piece was cast to Rook but is of another kind

  /** Either a value or the exception that the corresponding source code throws instead. */
  datatype Result<+T> = Ok(value: T) | Err(error: Error) {

    predicate IsFailure() {
      Err?
    }

    function PropagateFailure<U>(): Result<U>
      requires Err?
    {
      Err(error)
    }

    function Extract(): T
      requires Ok?
    {
      value
    }
  }
}
