/** The optional value that stands for PHP's `?string` and for "no match". */
module Wrappers {

  datatype Option<+T> = None | Some(value: T)
}
