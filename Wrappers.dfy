/** An optional value: what a lookup, a parse or a library call that may fail hands back. */
module Wrappers {

  datatype Option<+T> = None | Some(value: T)
}
