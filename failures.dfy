/** Outcomes shared by every stage of the BCH pipeline. */
module Failures {

  datatype Option<T> = None | Some(value: T)

  /** The ways a run can stop before producing Z. */
  datatype Failure =
    | KeyError(key: int)                      // a lookup into the order tables found no entry
    | CoefficientMissing(index: int)          // coeffs[index] does not exist
    | IndexOutOfRange(index: int)             // soln[index] does not exist
    | DimensionMismatch(rowsX: int, rowsY: int) // X and Y have different row counts

  datatype Result<T> = Ok(value: T) | Err(failure: Failure)
}
