/** An optional value: the page's null results. */
module Optional {

  datatype Option<+T> = None | Some(value: T)
}
