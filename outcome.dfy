/** Option and Result values, and the Python exceptions the modelled code can raise. */
module Outcome {

  /** Python's `None` or a present value. */
  datatype Option<+T> = None | Some(value: T)

  /** The exceptions the modelled code lets escape. */
  datatype Error =
    | ValueError          // `float(...)` of a field that is not a number
    | IndexError          // a list index past the end (`parts[1]`, `split(...)[1]`, a negative index)
    | ZeroDivisionError   // `... / R ** 2` with `R == 0`
    | TypeError           // arithmetic on `None` (`atom.atomIndex + i` for an atom never indexed)

  /** The outcome of a Python call: a value, or the exception it raises. */
  datatype Result<+T> = Ok(value: T) | Err(error: Error)
}
