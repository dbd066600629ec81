/** Java's `Optional<T>`: a value that is either absent or present. */
module Optional {
  datatype Option<+T> = None | Some(value: T)
}
