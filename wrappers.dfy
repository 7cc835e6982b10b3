/** Absent values: the `null` that the queues return when they are empty. */
module Wrappers {
  datatype Option<+T> = None | Some(value: T)
}
