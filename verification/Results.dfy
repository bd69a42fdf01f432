/** The optional values and results shared by every component of the model. */
module Results {

  datatype Option<+T> = None | Some(value: T)

  /** Success, or the stable reason code that the component reports. */
  datatype Result<+T, +E> = Ok(value: T) | Err(error: E)
}
