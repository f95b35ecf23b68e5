/** An optional value: `None` where the source reports a failure and stops. */
module Options {
  datatype Option<T> = None | Some(value: T)
}
