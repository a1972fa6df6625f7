/** The absent-or-present value used where the source produces NaN or nothing. */
module Optional {
  datatype Option<+T> = None | Some(value: T)
}
