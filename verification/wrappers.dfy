/** Optional values. `None` stands for a JavaScript value or field that is `undefined`. */
module Wrappers {

  datatype Option<+T> = None | Some(value: T)
}
