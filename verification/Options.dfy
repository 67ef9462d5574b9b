/** A value that may be missing: a null pointer, a nil, or a lookup that found nothing. */
module Options {
  datatype Option<+T> = None | Some(value: T)
}
