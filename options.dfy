/** The optional value used for std::optional fields and for search results. */
module Options {

  datatype Option<+T> = None | Some(value: T)
}
