/** Error values of the estimators and a Result wrapper that carries either
    a computed value or the error the program would raise instead. */
module Outcomes {

  /** The failures the program can raise on the modelled paths. */
  datatype Error =
    | NotEstimable              // the base model class refuses to estimate
    | UnsupportedWidth(size: nat) // no entry for this layer size in the decode-width table
    | ShapeMismatch             // operands whose dimensions do not line up
    | IndexOutOfRange           // a loop reads past the end of the weight matrix
    | MissingSpin               // a sample has no spin for some unit

  datatype Result<+T> = Ok(value: T) | Err(error: Error) {

    predicate IsFailure() {
      Err?
    }

    function PropagateFailure<U>(): Result<U>
      requires Err?
    {
      Err(error)
    }

    function Extract(): T
      requires Ok?
    {
      value
    }
  }
}
