/** The optional value used where a JavaScript field may be absent. */
module Optional {
  datatype Option<+T> = None | Some(value: T)
}
