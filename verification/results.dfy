/** Failure-carrying values used across the model: an operation either
    completes with a value or fails with an error, never both. */
module Results {

  datatype Option<+T> = None | Some(value: T)

  datatype Result<+T, +E> = Success(value: T) | Failure(error: E)

  /** The outcome of a check that returns nothing on success (a TypeScript
      `asserts` function): it passes, or it throws one error. */
  datatype Outcome<+E> = Pass | Fail(error: E)
}
