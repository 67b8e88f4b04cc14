/** An optional value: what a failed lookup collapses to. */
module Options {

  datatype Option<+T> = None | Some(value: T)

}
