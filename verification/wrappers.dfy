/** A value that may be absent: JavaScript's `T | null`, or an object key that
    may or may not be present. */
module Wrappers {

  datatype Option<+T> = None | Some(value: T)
}
