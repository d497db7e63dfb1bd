/** Nullable columns and optional arguments. */
module Options {
  datatype Option<+T> = None | Some(value: T)
}
