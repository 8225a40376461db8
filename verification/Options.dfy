/** Go's nil-able values and comma-ok results. */
module Options {
  datatype Option<+T> = None | Some(value: T)
}
