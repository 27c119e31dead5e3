/** The optional value returned by lookups that can miss. */
module Optional {

  datatype Option<T> = None | Some(value: T)
}
