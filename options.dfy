/** The optional value used throughout the model for JavaScript's `null`/`undefined`
    and SQL's NULL. */
module Options {

  datatype Option<+T> = None | Some(value: T)
}
