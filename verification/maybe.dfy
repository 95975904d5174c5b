/** An optional value: the model's stand-in for Python's `None`, and for a
    parse that raised `ValueError`. */
module Maybe {

  datatype Option<+T> = None | Some(value: T)
}
