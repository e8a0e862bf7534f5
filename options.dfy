/** The optional value Python expresses as `X | None`. */
module Options {
  datatype Option<T> = None | Some(value: T)
}
