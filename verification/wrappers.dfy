/** Optional values: an empty ring slot (a null `struct packet *`) and the
    "no packet" answer of a pop on an empty link. */
module Wrappers {

  datatype Option<+T> = None | Some(value: T)
}
