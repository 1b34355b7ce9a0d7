/** Failure-carrying results shared by the modules of the detector model. */
module Wrappers {

  datatype Option<T> = None | Some(value: T)

  /** The exceptions the modelled code can raise; each names the call that raises it. */
  datatype Error =
    | EmptyChoice          // np.random.choice on an empty population with a positive size
    | EmptyMax             // torch.max over an empty slice
    | EmptyStack           // torch.stack / torch.cat / np.concatenate over an empty list
    | MissingKey           // a dict lookup of a key that is not present
    | IndexOutOfRange      // a tensor or list index past its end
    | ShapeMismatch        // np.array over ragged rows, or concatenation of mismatched widths
    | NegativeShift        // 1 << n with n < 0
    | InvalidDataset       // raise Exception("Invalid Dataset")
    | ConfusionShape       // confusion_matrix(...).ravel() yields fewer than four counts
    | ZeroDivision         // a division by zero
    | LoaderExhausted      // the bounded retry loop ran out of passes over the loader
    | ModelRaised          // the classifier's forward pass raised outside a try block

  datatype Result<T> = Ok(value: T) | Err(error: Error)
}
