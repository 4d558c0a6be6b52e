/** The optional value shared by the kernel probe and the tracing engine. */
module Wrappers {

  datatype Option<T> = None | Some(value: T)
}
