/** An optional value, used for JavaScript's `undefined` and for partial
    operations such as `JSON.parse`. */
module Wrappers {
  datatype Option<+T> = None | Some(value: T)
}
