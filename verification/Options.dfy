/** Optional values, for Go's nil pointers and missing results. */
module Options {
  datatype Option<+T> = None | Some(value: T)
}
