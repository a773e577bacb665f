/** Outcomes of calls into the collaborators (HTTP client, document store). */
module Common {

  datatype Option<T> = None | Some(value: T)

  /** An error as the collaborators report it. `NoDocuments` is the store's
      "no document matched" sentinel, which callers test for by identity. */
  datatype Error = NoDocuments | Failure(message: string)

  datatype Result<T> = Ok(value: T) | Err(error: Error)
}
