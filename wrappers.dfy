/** An optional value and the result of a call that may raise. */
module Wrappers {

  /** Python's `None` or a present value. */
  datatype Option<+T> = None | Some(value: T)

  /** What a call into an opaque collaborator (a language model, the intent
      classifier, a vault scan) gave back: a value, or an exception that the
      caller's `try` block absorbs. */
  datatype Outcome<+T> = Returned(value: T) | Raised
}
