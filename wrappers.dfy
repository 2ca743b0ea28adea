/** A value that may be absent: JavaScript's `undefined` where the heatmap reads an optional property. */
module Wrappers {
  datatype Option<+T> = None | Some(value: T)
}
