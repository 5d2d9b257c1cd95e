/** The optional value the source expresses with Python's None (and, for a
    meal slot, with False). */
module Options {

  datatype Option<+T> = None | Some(value: T)
}
