/** The optional value used for JavaScript's `undefined` and for "no match". */
module Options {
  datatype Option<+T> = None | Some(value: T)
}
