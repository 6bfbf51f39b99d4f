/** Outcome of a call to one of the modelled Python routines: a value, or the
    exception the routine raises. */
module Wrappers {

  /** The Python exceptions the modelled code can raise. */
  datatype PyError =
    | KeyError(key: string)     // a dict lookup of a missing key
    | UnpackError               // `a, b = xs` where `xs` does not have exactly two items
    | NoneNotSubscriptable      // `None[...]`
    | ZeroDivision              // a division by zero

  datatype Result<+T> = Ok(value: T) | Err(error: PyError)

  datatype Option<+T> = None | Some(value: T)
}
