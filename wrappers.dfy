/** Optional values, used where the PHP code tests isset() or defined(). */
module Wrappers {

  datatype Option<+T> = None | Some(value: T)
}
