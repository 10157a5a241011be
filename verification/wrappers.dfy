/** Optional values: a slot of browser storage or a field of the loaded
    dataset that may be absent. */
module Wrappers {

  datatype Option<+T> = None | Some(value: T)
}
