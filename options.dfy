/** An optional value: a nullable database column or the absent result of a search. */
module Options {

  datatype Option<T> = None | Some(value: T)
}
