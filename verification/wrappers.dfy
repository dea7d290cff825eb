/** Nullable cells and the load outcome. */
module Wrappers {

  /** A cell that may hold a value or be missing (pandas' NaN / None). */
  datatype Option<+T> = None | Some(value: T)

  /** Either a value or an error describing why it could not be produced. */
  datatype Result<+R, +E> = Success(value: R) | Failure(error: E)
}
