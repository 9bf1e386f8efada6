/** Option type used for the Java `null` results and fatal exits of the source. */
module Wrappers {
  datatype Option<T> = None | Some(value: T)
}
