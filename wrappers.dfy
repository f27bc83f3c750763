/** Optional values: `None` stands for PHP's `false` / unset. */
module Wrappers {

  datatype Option<+T> = None | Some(value: T)
}
