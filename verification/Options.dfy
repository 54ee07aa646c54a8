/** Result shapes shared by the whole model. */
module Options {
  datatype Option<+T> = None | Some(value: T)

  datatype Result<+T, +E> = Ok(value: T) | Err(error: E)

  function Or<T>(newer: Option<T>, previous: Option<T>): Option<T> {
    if newer.Some? then newer else previous
  }
}
