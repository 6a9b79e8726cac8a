/** An optional value: a missing predecessor, move or last board. */
module Options {

  datatype Option<+T> = None | Some(value: T)

}
