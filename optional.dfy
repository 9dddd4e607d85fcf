/** The optional value used for TypeScript's `T | undefined`: `None` stands for `undefined`. */
module Optional {

  datatype Option<+T> = None | Some(value: T)
}
