/** The optional value used wherever the source reads something that may be
    absent (`URLSearchParams.get` returning null, a parsed field left out). */
module Options {
  datatype Option<+T> = None | Some(value: T)
}
