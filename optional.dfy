/** Python's `None`-or-value results, as an Option datatype. */
module Optional {

  datatype Option<+T> = None | Some(value: T)
}
