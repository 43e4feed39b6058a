/** Failure-carrying wrappers shared by every module of the model, and the
    errors the Python code raises (or would raise) on its error paths. */
module Common {

  datatype Option<+T> = None | Some(value: T)

  datatype Result<+T> = Ok(value: T) | Err(error: Failure) {
    predicate IsFailure() { Err? }
    function PropagateFailure<U>(): Result<U>
      requires Err?
    {
      Err(error)
    }
    function Extract(): T
      requires Ok?
    {
      value
    }
  }

  /** The exceptions of the source, one constructor each. */
  datatype Failure =
    | NotFitted             // sklearn NotFittedError: transform before fit
    | EmptyInput            // sklearn ValueError: fit on 0 samples
    | BadShape              // sklearn ValueError: ragged rows or wrong feature count
    | ZeroDistance          // 1 / 0 distance (pandas yields inf and then NaN weights)
    | EmptyHistory          // numpy percentile of an empty array
    | PercentileOutOfRange  // numpy ValueError: percentile outside [0, 100]
    | IndexOutOfRange       // Python IndexError on the compass table
    | NoLocation            // AttributeError: LAT/LON read before set_location
    | LocationNotFound      // ValueError raised by set_location
    | MissingKey            // KeyError on a dict lookup
    | UnboundSuggestions    // UnboundLocalError: "Summary:" absent from the suggestion
    | NoCurrentWeather      // AttributeError: CURRENT is None
}
