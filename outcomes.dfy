/** The result types every queue operation returns: a definite outcome, never a panic. */
module Outcomes {

  /** `Option<usize>`, used by `capacity()`: `None` stands for an unbounded queue. */
  datatype Option<+T> = None | Some(value: T)

  /** Rust's `Result`: `Ok` on success, `Err` with the reason otherwise. */
  datatype Result<+R, +E> = Ok(value: R) | Err(error: E)

  /** Why a push was refused. Both cases hand the rejected item back to the caller. */
  datatype PushError<+T> =
    | Full(item: T)    // the queue is full but not closed
    | Closed(item: T)  // the queue is closed

  /** Why a pop returned no item. */
  datatype PopError =
    | Empty   // the queue is empty but not closed
    | Closed  // the queue is empty and closed
}
