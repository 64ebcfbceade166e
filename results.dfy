/** Failure-carrying results shared by every stage of the formula pipeline.
    The source signals failure by raising; here each stage returns one of these. */
module Results {

  datatype Option<+T> = None | Some(value: T)

  datatype Result<+T, +E> = Ok(value: T) | Err(error: E)
}
