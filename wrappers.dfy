/** The optional value the models return where the sources return a null
    pointer or leave an out-parameter unset. */
module Wrappers {
  datatype Option<T> = None | Some(value: T)
}
