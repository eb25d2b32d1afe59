/** The optional-value datatype used for absent request fields and failed parses. */
module Options {

  datatype Option<+T> = None | Some(value: T)

}
