/** A value that may be absent. */
module Options {
  datatype Option<+T> = None | Some(value: T)
}

/** A value, or a refusal whose kind does not matter where it is used. */
module Results {
  datatype Result<+T> = Ok(value: T) | Err
}
