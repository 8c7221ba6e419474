/** Swift's `Optional`: `nil` or a wrapped value. */
module Optional {

  datatype Option<+T> = None | Some(value: T)
}
