/** The optional value used for results that Python signals with None or an exception. */
module Options {

  datatype Option<T> = None | Some(value: T)
}
