/** An optional value: used for Go's nil-or-error results and for values
    that may be absent. */
module Options {

  datatype Option<+T> = None | Some(value: T)

}
