/** Shared vocabulary: group identifiers, optional values, and the errors the
    tuning-curve functions can raise (as numpy, pandas or the module itself would). */
module Types {

  /** Identifier of one member of a group of event series. */
  type Key = int

  datatype Option<+T> = None | Some(value: T)

  /** The exceptions that can escape the three entry points. */
  datatype Error =
    | EmptyFeature        // np.min / np.max of a feature with no samples
    | BoundsTooShort      // minmax has too few entries: IndexError
    | NegativeBinCount    // np.linspace with a negative number of samples
    | BinsNotIncreasing   // np.histogram / np.histogram2d with decreasing edges
    | NotTwoDimensional   // the 2-D entry point given a feature without exactly two columns
    | NoBinEdges          // np.histogram2d given an axis without edges: IndexError

  datatype Result<+T> = Ok(value: T) | Err(error: Error) {
    predicate IsFailure() { Err? }

    function PropagateFailure<U>(): Result<U>
      requires Err?
    {
      Err(error)
    }

    function Extract(): T
      requires Ok?
    {
      value
    }
  }
}
