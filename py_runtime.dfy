/** The slice of Python's run-time behaviour that both versions of the
    continued-fraction class rely on: the exceptions they can raise, and
    result values that carry either a value or the exception raised. */
module PyRuntime {

  /** The Python exceptions the two classes can raise. */
  datatype PyError =
    | TypeError          // constructor argument of an unsupported type
    | ValueError         // int() of a malformed token, math.sqrt of a negative number
    | IndexError         // indexing an empty string or list, or one past its end
    | ZeroDivisionError  // `x % 0`, or Fraction(1, 0)
    | AttributeError     // reading an attribute that __init__ never assigned

  /** A computation that either returns a value or raises. */
  datatype Result<+T> = Ok(value: T) | Err(error: PyError)

  /** A statement that either completes or raises. */
  datatype Outcome = Pass | Fail(error: PyError)

  /** An attribute that may not have been assigned yet. */
  datatype Option<+T> = None | Some(value: T)
}
