/** The success-or-failure values the model uses in place of Python's
    exceptions and `None`. */
module Results {

  /** A value that may be absent, e.g. the outcome of `int()` on text that is
      not a number. */
  datatype Option<+T> = None | Some(value: T)

  /** The outcome of a step that either yields a value or fails with a reason,
      e.g. one configuration line turned into a field or rejected. */
  datatype Result<+T, +E> = Ok(value: T) | Err(error: E)
}
