/** The optional value shared by the lookups of the model. */
module Options {

  datatype Option<T> = None | Some(value: T)
}
