/** The optional and success-or-error values the derive model returns. */
module Wrappers {

  datatype Option<+T> = None | Some(value: T)

  /** The `syn::Result` a derive returns: the generated items, or the diagnostic it reports. */
  datatype Result<+T, +E> = Ok(value: T) | Err(error: E)
}
