/** Option: a value that may be absent (a failed probe, a missing lookup, a refused build). */
module Wrappers {

  datatype Option<+T> = None | Some(value: T)
}
