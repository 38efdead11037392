/** Java's null and thrown exceptions, as values. */
module Wrappers {

  /** A reference that may be null: `None` stands for Java's `null`. */
  datatype Option<+T> = None | Some(value: T)

  /** A constructor that either builds its object or throws. */
  datatype Result<+T, +E> = Ok(value: T) | Err(error: E)
}
