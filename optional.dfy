/** The absent-or-present value used for JavaScript's `undefined`/`null` results. */
module Optional {
  datatype Option<+T> = None | Some(value: T)
}
