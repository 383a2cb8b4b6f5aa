/** Optional values: Java's nullable references and operations that may throw
    an unchecked exception. */
module Wrappers {

  datatype Option<+T> = None | Some(value: T)
}
