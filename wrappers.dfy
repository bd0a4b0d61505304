/** Optional values and the outcome of a call into a remote service. */
module Wrappers {

  /** A JavaScript value that may be `undefined`. */
  datatype Option<+T> = None | Some(value: T)

  /** What an awaited remote call gave back: its reply, or a thrown error. */
  datatype Reply<+T> = Ok(value: T) | Fault
}
