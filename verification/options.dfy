/** The optional value used for a course's semester, a parsed number and an imported field. */
module Options {

  datatype Option<+T> = None | Some(value: T)
}
