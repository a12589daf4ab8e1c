/** A value that JavaScript may leave `undefined` (or `null`): None, or a present value. */
module Wrappers {

  datatype Option<+T> = None | Some(value: T)
}
