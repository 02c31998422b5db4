/** Option and Result types, and the errors the modelled routines raise. */
module Wrappers {

  datatype Option<+T> = None | Some(value: T)

  /** The exceptions raised by the modelled code paths. */
  datatype Error =
    | EmptyReduction      // numpy's `max` of a zero-size array raises ValueError
    | EmptyConcatenation  // `np.vstack` of an empty list raises ValueError
    | ShapeMismatch       // `np.vstack` of blocks with different column counts
    | InvalidAlternative  // an `alternative` outside greater / less / twosided

  datatype Result<+T> = Success(value: T) | Failure(error: Error)
}
