/** The optional value used for nullable columns and for "no job leased". */
module Options {

  datatype Option<+T> = None | Some(value: T)
}
