/** An optional value: a browser property that may be absent (`undefined`). */
module Wrappers {
  datatype Option<+T> = None | Some(value: T)
}
