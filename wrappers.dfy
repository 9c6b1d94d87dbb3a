/** The nullable values of the retry engine (`int?`, a delegate that may be null). */
module Wrappers {

  datatype Option<+T> = None | Some(value: T)
}
