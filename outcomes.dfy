/** Failure-carrying values shared by the verbs and their collaborators. */
module Outcomes {

  /** Stands for Rust's `Option`: a missing map entry or an absent filtered tree. */
  datatype Option<+T> = None | Some(value: T)

  /** An I/O failure reported by the launcher: an error value whose contents
      the verbs never read; they only pass it on unchanged. */
  datatype IoError = IoError(description: string)

  /** Stands for `io::Result`. */
  datatype Result<+T> = Ok(value: T) | Err(error: IoError)
}
