/** Small result types shared by the other modules. */
module Wrappers {

  /** A value that may be missing. */
  datatype Option<+T> = None | Some(value: T)

  /** How a promise settles: with a value, or rejected because a callback threw. */
  datatype Settled<+T> = Resolved(value: T) | Rejected
}
