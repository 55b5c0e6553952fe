/** Optional values, standing for JavaScript attributes that may be absent and
    for Python look-ups that may find nothing. */
module Wrappers {

  datatype Option<+T> = None | Some(value: T)
}
