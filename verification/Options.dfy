/** Results of operations that may fail or find nothing. */
module Options {
  datatype Option<+T> = None | Some(value: T)
}
