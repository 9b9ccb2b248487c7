/** Optional values: PHP's "absent"/`null` on the paths the model cares about. */
module Wrappers {

  datatype Option<+T> = None | Some(value: T)
}
