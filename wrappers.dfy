/** Optional values: JavaScript's `undefined` result of a lookup that found nothing. */
module Wrappers {

  datatype Option<+T> = None | Some(value: T)
}
