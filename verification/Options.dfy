// A value that may be missing: a NULL pointer, MAP_FULL, or an empty queue.
module Options {
  datatype Option<+T> = None | Some(value: T)
}
