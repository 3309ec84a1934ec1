/** Failure-carrying values shared by every component. */
module Wrappers {
  datatype Option<+T> = None | Some(value: T)

  datatype Result<+T, +E> = Success(value: T) | Failure(error: E)

  /** A text column after a partial write, which skips the empty text. */
  function OrElse(sent: string, stored: string): string {
    if sent == "" then stored else sent
  }
}
