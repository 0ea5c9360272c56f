/** The result of a step that may have none. */
module Options {

  datatype Option<+T> = None | Some(value: T)
}
