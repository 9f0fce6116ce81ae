/** Optional values: the outcome of a call into the text generator, where None
    stands for a raised exception. */
module Wrappers {

  datatype Option<+T> = None | Some(value: T)

}
