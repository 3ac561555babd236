/**
 * The absence value returned when a read finds nothing. It stands for
 * Python's `None` only in that role; a recorded entry is never `None` here.
 */
module Wrappers {

  datatype Option<+T> = None | Some(value: T)
}
