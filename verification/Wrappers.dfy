/** Option and Result, and the ways a database statement or a sync can fail. */
module Wrappers {

  datatype Option<+T> = None | Some(value: T)

  datatype Error =
    | CardinalityViolation  // one INSERT proposes two rows with the same constrained key
    | TooManyParameters     // one statement binds more than 65,535 parameters
    | ForeignKeyViolation   // a child row names a parent that does not exist
    | ConnectionLost        // the database went away; any statement may meet it
    | FetchFailed           // the export request or the parser raised

  datatype Result<+T> = Ok(value: T) | Err(error: Error) {
    predicate IsFailure() {
      Err?
    }

    function PropagateFailure<U>(): Result<U>
      requires Err?
    {
      Err(error)
    }

    function Extract(): T
      requires Ok?
    {
      value
    }
  }
}
