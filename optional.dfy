/** The "pointer may be NULL" state of the source, made explicit. */
module Optional {

  datatype Option<+T> = None | Some(value: T)
}
