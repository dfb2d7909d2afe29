module Options {
  datatype Option<+T> = None | Some(value: T)

  function GetOr<T>(o: Option<T>, fallback: T): T {
    if o.Some? then o.value else fallback
  }
}
