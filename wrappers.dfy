/** Optional values: JavaScript's `undefined`, `null` and `NaN` where the model needs them. */
module Wrappers {

  datatype Option<+T> = None | Some(value: T)
}
