/** Values that stand for what the hosted data store answers. Every remote call of
    the two views is replaced by one of these, handed in by the caller, so that each
    handler is a sequential, deterministic step. */
module Outcomes {

  /** A value that may be absent; `None` stands for JavaScript's `null`. */
  datatype Option<+T> = None | Some(value: T)

  /** The answer to a `select` query: the rows, or the store's error message. */
  datatype Fetch<+T> = Fetched(data: T) | FetchFailed(message: string)

  /** The answer to an `insert`, `update` or `delete`: no error, or the error message. */
  datatype Outcome = Succeeded | Failed(message: string)
}
