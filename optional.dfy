/** Python's None-or-value and C's nullable pointer arguments. */
module Optional {
  datatype Option<T> = None | Some(value: T)
}
