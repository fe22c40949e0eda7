/** The optional value used where the source has nil or "no event". */
module Optional {

  datatype Option<+T> = None | Some(value: T)
}
