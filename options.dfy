/** The optional value used across the model: a JSON field that may be absent,
    a segment that may not parse, a run that may have been aborted. */
module Options {

  datatype Option<+T> = None | Some(value: T)

}
