/** Option and Result values for the places where the analytics code returns
    nothing (a regular-expression search without a match, a mean of no buckets)
    or raises (an empty period, an out-of-range list index, an unknown month key). */
module Outcomes {

  datatype Option<+T> = None | Some(value: T)

  /** The exceptions the modelled code can raise, by cause. */
  datatype Error =
    | EmptyPeriod   // pandas `idxmax` of an empty column (ValueError)
    | IndexError    // a Python list index outside the list
    | KeyError      // a `loc` key that pandas cannot read as a month

  datatype Result<+T> = Ok(value: T) | Err(error: Error)
}
