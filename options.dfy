/** An optional value: a prompt that was cancelled, a ray that hit nothing. */
module Options {
  datatype Option<T> = None | Some(value: T)
}
