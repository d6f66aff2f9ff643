/** The optional value used where the source returns null or a reader would trip an
    SK_DEBUG assertion. */
module Wrappers {
  datatype Option<T> = None | Some(value: T)
}
