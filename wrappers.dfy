/** Small result types shared by the whole model. */
module Wrappers {

  /** A value that may be absent: a Go `(value, ok)` pair or a nil pointer. */
  datatype Option<+T> = None | Some(value: T)

  /** The outcome of a Go call that may panic (index out of range, division
      by zero, `log.Panic`). A panic unwinds the whole call, so no partial
      result survives it. */
  datatype Outcome<+T> = Returned(value: T) | Panicked(reason: string)
}
