/** An optional value, for lookups that can fail. */
module Options {

  datatype Option<T> = None | Some(value: T)
}
