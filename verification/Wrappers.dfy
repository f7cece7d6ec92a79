/** Values that may be absent: null, undefined and the results of failed searches. */
module Wrappers {
  datatype Option<+T> = None | Some(value: T)
}
