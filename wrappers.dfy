/** The optional value the source expresses with `null` and with empty results. */
module Wrappers {
  datatype Option<+T> = None | Some(value: T)
}
