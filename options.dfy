/** The optional value used for Java references that may be null and for
    operations that may fail. */
module Options {

  datatype Option<+T> = None | Some(value: T)
}
