/** The optional value used wherever the Go code returns a value together with an `ok` flag. */
module Options {

  datatype Option<+T> = None | Some(value: T)

}
