/** The optional value used where the source returns NULL or keeps "nothing pending". */
module Options {
  datatype Option<+T> = None | Some(value: T)
}
