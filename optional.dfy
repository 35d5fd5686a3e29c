/** Python's `None`-or-a-value, as an explicit datatype. */
module Optional {

  datatype Option<T> = None | Some(value: T)

}
