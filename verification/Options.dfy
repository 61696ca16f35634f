/** The optional value shared by the other modules: Go's nil pointers, missing keys and unset fields. */
module Options {

  datatype Option<+T> = None | Some(value: T)
}
