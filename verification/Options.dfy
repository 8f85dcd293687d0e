/** Nullable columns and optional arguments, operations that may throw, and writes that may get lost. */
module Options {
  datatype Option<+T> = None | Some(value: T)

  datatype Result<+T, +E> = Ok(value: T) | Err(error: E)

  /** How a write ends: heard as done, without effect, or done but heard as failed. */
  datatype Fate = Heard | Lost | Unheard
}
