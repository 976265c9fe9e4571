/** Failure-carrying values shared by every module: an optional value and a
    value-or-error result, standing in for JavaScript's `undefined` and for a
    rejected promise. */
module Results {

  datatype Option<+T> = None | Some(value: T)

  datatype Result<+T, +E> = Ok(value: T) | Err(error: E)
}
