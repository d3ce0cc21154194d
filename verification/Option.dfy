/** The optional value used throughout for "absent", "nil" and "no error". */
module Option {
  datatype Option<+T> = None | Some(value: T)
}
