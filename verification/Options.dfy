/**
 A value or nothing, for lookups and parsers that can fail.
 */
module Options {
  datatype Option<+T> = None | Some(value: T)
}
