/** The one container type every component shares. */
module Options {
  /** A value that the source types as `T | undefined` or `T | null`. */
  datatype Option<+T> = None | Some(value: T)
}
