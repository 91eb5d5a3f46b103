/** Option type used for results that the source reports as None or as an exception. */
module Wrappers {
  datatype Option<+T> = None | Some(value: T)
}
