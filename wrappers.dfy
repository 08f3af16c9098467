/** Small sum types shared by the model of the settings store. */
module Wrappers {

  /** A value that may be missing: JavaScript's `null`/`undefined` result of a lookup. */
  datatype Option<+T> = None | Some(value: T)

  /** The outcome of an operation that can fail: a zod parse, a write to disk. */
  datatype Result<+T, +E> = Ok(value: T) | Err(error: E)

  /**
   * A JavaScript argument typed `string | null | undefined`: the three cases
   * are told apart by the store (`?? ` versus `=== null` versus a default
   * parameter), so they stay three constructors here.
   */
  datatype Nullish = Undefined | Null | Str(s: string)
}
