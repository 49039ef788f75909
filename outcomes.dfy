/** Option and Result values shared by the jury's modules. */
module Outcomes {

  datatype Option<+T> = None | Some(value: T)

  /** The only exception the deliberation core can raise on its own:
      indexing past the end of `line.split(":", 1)` when a verdict line has no colon. */
  datatype Error = IndexError

  /** A value, or the exception that aborted the computation. */
  datatype Result<+T> = Ok(value: T) | Err(error: Error)
}
