/** Optional values and results shared by the other modules. */
module Wrappers {

  /** A value that may be missing: pandas' NaN/NaT or a search that found nothing. */
  datatype Option<+T> = None | Some(value: T)

  /** The result of a step that can abort the pipeline with a reported error. */
  datatype Result<+T, +E> = Ok(value: T) | Err(error: E)
}
