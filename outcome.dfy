/** Outcomes of the assistant's operations: a value, or the exception that the Python code would raise. */
module Outcome {

  datatype Option<T> = None | Some(value: T)

  /** The exceptions the core can raise. */
  datatype Failure =
    | ServiceError(detail: string)  // raised inside the retriever or a language-model call
    | NameError(name: string)       // a name used but never defined or imported
    | KeyError(key: string)         // a missing dictionary key

  datatype Result<T> = Ok(value: T) | Err(failure: Failure)
}
