/** Failure-compatible wrappers shared by the whole model. */
module Wrappers {

  /** Python's `None` or a value. */
  datatype Option<+T> = None | Some(value: T)

  /** A result, or the Python exception raised instead. */
  datatype Result<+T, +E> = Ok(value: T) | Err(error: E)

  /** Python truthiness of an optional string: present and not empty. */
  predicate Truthy(o: Option<string>)
  {
    o.Some? && o.value != ""
  }

  /** The exceptions the modelled code raises. */
  datatype Error =
    | ValueError(message: string)
    | AttributeError
    | IndexError
    | TypeError
}
