/** Values that the dashboard writes as `T | null`. */
module Options {
  datatype Option<+T> = None | Some(value: T)
}
