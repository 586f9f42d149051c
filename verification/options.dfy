/** The optional-value datatype used for lookups and for decoding, where the
    source answers with a second `ok` result or simply returns early. */
module Options {

  datatype Option<+T> = None | Some(value: T)
}
