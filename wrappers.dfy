/** Optional values: an absent user id, a lookup that found nothing. */
module Wrappers {
  datatype Option<+T> = None | Some(value: T)
}
