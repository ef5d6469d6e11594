/** The two wrappers the model uses: `Option` stands for a Python value that
    may be `None`, `Result` for a handler that either finishes or raises the
    error it reports back to the user. */
module Results {

  datatype Option<+T> = None | Some(value: T)

  datatype Result<+T, +E> = Ok(value: T) | Err(error: E)
}
