/**
 * Option and Result, the two wrappers the Rust source uses for absent values
 * and errors, and Panic, which stands for a panic that ends the program.
 */
module Wrappers {

  datatype Option<+T> = None | Some(value: T)

  datatype Result<+R, +E> = Ok(value: R) | Err(error: E)

  /** A panic, with its message. */
  datatype Panic = Panic(message: string)
}
