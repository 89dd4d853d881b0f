/** A value that may be absent: a DOM element that is not on the page, an empty storage slot. */
module Optional {
  datatype Option<+T> = None | Some(value: T)
}
