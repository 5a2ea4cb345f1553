/** The failures the simulation can raise, and the result wrappers that carry them.
    Each Fault stands for the .NET exception the original code would throw. */
module Outcomes {

  datatype Fault =
    | MissingKey       // KeyNotFoundException from a dictionary lookup
    | EmptySequence    // InvalidOperationException from First()/Max() on an empty row
    | IndexOutOfRange  // an array or list index outside its bounds
    | BadFormat        // FormatException from int.Parse or double.Parse
    | Overflow         // OverflowException from int.Parse

  datatype Option<+T> = None | Some(value: T)

  datatype Result<+T> = Success(value: T) | Failure(error: Fault) {
    predicate IsFailure() {
      Failure?
    }

    function PropagateFailure<U>(): Result<U>
      requires Failure?
    {
      Failure(error)
    }

    function Extract(): T
      requires Success?
    {
      value
    }
  }
}
