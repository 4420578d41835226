/** A value that may be missing: the source's nil results, failed lookups and error returns. */
module Options {
  datatype Option<+T> = None | Some(value: T)
}
