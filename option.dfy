/** Python's `None`-or-value, used where the scripts return or store an
    optional value. */
module Opt {
  datatype Option<T> = None | Some(value: T)
}
