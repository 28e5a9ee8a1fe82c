/** Option and Result, the two shapes the scripts' return values take: a value or
    Python's `None`, and a value or a raised error with its message. */
module Wrappers {

  datatype Option<+T> = None | Some(value: T)

  /** `Err` stands for a `RuntimeError` raised with `message`. */
  datatype Result<+T> = Ok(value: T) | Err(message: string)
}
