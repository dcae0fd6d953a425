/** The Python exceptions the modelled code raises or lets escape, and the
    result type every fallible operation returns instead of raising. */
module Py {

  datatype Error =
    | TagError(msg: string)          // raised by the tag parser
    | AssertionError                 // a failed `assert` in the source
    | IndexError                     // `pop` from an empty list, `[-1]` of an empty list
    | TypeError                      // subscripting a scalar, `dict.update` with a non-iterable
    | ValueError(msg: string)        // shlex errors, an unknown case selector
    | FileNotFoundError(path: string)
    | IsADirectoryError(path: string)

  datatype Result<+T> = Ok(value: T) | Err(error: Error) {
    predicate IsFailure() { Err? }

    function PropagateFailure<U>(): Result<U>
      requires Err?
    {
      Err(error)
    }

    function Extract(): T
      requires Ok?
    {
      value
    }
  }

  datatype Option<+T> = None | Some(value: T)
}
