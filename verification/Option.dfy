/** Optional values, for the source's null and undefined. */
module Option {
  datatype Option<+T> = None | Some(value: T)
}
