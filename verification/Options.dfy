/** The absence of a value: NaN, `None` and "nothing cached" in the originals. */
module Options {

  datatype Option<+T> = None | Some(value: T)
}
