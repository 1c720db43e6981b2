/** Optional values: a fetch that failed, an absent command-line argument. */
module Wrappers {

  datatype Option<+T> = None | Some(value: T)

  /** Python truthiness of an optional string: neither None nor "". */
  predicate Truthy(o: Option<string>)
  {
    o.Some? && o.value != ""
  }
}
