/** The one optional value everything here uses. */
module Options {

  datatype Option<+T> = None | Some(value: T)
}
