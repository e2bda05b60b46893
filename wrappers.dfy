/** Option and Result values used in place of JavaScript's `null`/`undefined`
    and of the `{ data, error }` pairs returned by the data store. */
module Wrappers {

  datatype Option<+T> = None | Some(value: T)

  /** The outcome of a store query: the rows it returned, or an error. */
  datatype Result<+T> = Ok(value: T) | Error
}
