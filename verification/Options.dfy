/** The optional value used across the model. */
module Options {
  datatype Option<+T> = None | Some(value: T)

  function OrElse<T>(o: Option<T>, fallback: T): T {
    if o.Some? then o.value else fallback
  }
}
