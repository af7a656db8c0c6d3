/** The absent-or-present value that stands for TypeScript's optional fields and `undefined`. */
module Optional {

  datatype Option<T> = None | Some(value: T)
}
