/** A value that may be absent: the model of a nullable reference (`T | null`). */
module Optional {
  datatype Option<+T> = None | Some(value: T)
}
