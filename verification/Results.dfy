/** Failure-compatible datatypes: exceptions of the program become values. */
module Results {

  datatype Option<+T> = None | Some(value: T) {
    predicate IsFailure() { None? }
    function PropagateFailure<U>(): Option<U>
      requires None?
    {
      None
    }
    function Extract(): T
      requires Some?
    {
      value
    }
  }

  /** The exceptions of the program. */
  datatype Error =
    | StackTooDeep
    | ItemNotAvailable
    | OptimizerFailure
    | ContractExpected
    | BaseNotDefined
    | LinearizationImpossible
    | TooLargeForStorage

  datatype Status = Fine | Failed(error: Error) {
    predicate IsFailure() { Failed? }
    function PropagateFailure(): Status
      requires Failed?
    {
      this
    }
  }

  datatype Result<+T> = Ok(value: T) | Err(error: Error) {
    predicate IsFailure() { Err? }
    function PropagateFailure<U>(): Result<U>
      requires Err?
    {
      Err(error)
    }
    function Extract(): T
      requires Ok?
    {
      value
    }
  }
}
