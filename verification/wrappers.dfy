/** Failure-compatible Option and Result types used by every other module.
    `Result` stands for the exporter's `fatal!`/`s_unwrap` non-local exits and
    for `std::result::Result`; both can be used with `:-`. */
module Wrappers {

  datatype Option<+T> = None | Some(value: T) {

    predicate IsFailure() {
      None?
    }

    function PropagateFailure<U>(): Option<U>
      requires None?
    {
      None
    }

    function Extract(): T
      requires Some?
    {
      value
    }
  }

  datatype Result<+T, +E> = Ok(value: T) | Err(error: E) {

    predicate IsFailure() {
      Err?
    }

    function PropagateFailure<U>(): Result<U, E>
      requires Err?
    {
      Err(error)
    }

    function Extract(): T
      requires Ok?
    {
      value
    }
  }

  /** The diagnostic of a translation that aborts (the exporter's `fatal!`
      and the panics of `unwrap`/indexing). */
  datatype Fatal = Fatal(message: string)
}
