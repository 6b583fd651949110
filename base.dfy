/** Small wrappers shared by every module of the model. */
module Base {

  /** A value that may be missing (JavaScript `undefined`, a parser that rejects, NaN). */
  datatype Option<+T> = None | Some(value: T)

  /** The outcome of a JavaScript call that may throw instead of returning. */
  datatype Try<+T> = Returned(value: T) | Threw
}
