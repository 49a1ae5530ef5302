/** Small wrapper types shared by every module of the interpreter model. */
module Common {

  datatype Option<+T> = None | Some(value: T)

  /** Why the C++ program stops instead of producing a value.
      OutOfFuel stands for a computation that has not finished within the model's
      nesting bound (a recursive closure or a self-expanding macro). */
  datatype Fault =
    | OutOfFuel
    | AssertionFailure     // a failed `assert(...)` in the source
    | UndefinedBehaviour   // a null `cons_` dereference or an out-of-range vector index

  /** A value, or the fault that stopped the computation. It can be used with `:-`. */
  datatype Result<+T> = Ok(value: T) | Abort(fault: Fault) {
    predicate IsFailure() { Abort? }

    function PropagateFailure<U>(): Result<U>
      requires Abort?
    {
      Abort(fault)
    }

    function Extract(): T
      requires Ok?
    {
      value
    }
  }
}
