/** Option and result types shared by the reader layer and the dataset utilities. */
module Wrappers {

  datatype Option<+T> = None | Some(value: T)

  /** The outcome of an operation that the source either completes or aborts with an exception. */
  datatype Result<+T, +E> = Ok(value: T) | Err(error: E)
}
