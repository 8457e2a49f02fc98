/** An optional value, used where the source reads "the key may be absent". */
module Wrappers {
  datatype Option<+T> = None | Some(value: T)
}
