/** The "may be absent" wrapper used for JavaScript's null/undefined. */
module Optional {

  datatype Option<+T> = None | Some(value: T)
}
