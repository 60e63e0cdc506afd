/** The optional value used wherever the source may return nothing or fail. */
module Options {

  datatype Option<+T> = None | Some(value: T)
}
