/** Option and Result types shared by the model.  */
module Wrappers {

  /** A Java reference that may be null: `None` is null.  */
  datatype Option<+T> = None | Some(value: T)

  /** The ways an update cycle can end without a result.
      - IOError: the network request failed, or the pull parser threw an
        XmlPullParserException (which the source rethrows as an IOException);
      - InvalidLocation: the place document gave no usable town name;
      - NumberFormat: Integer.parseInt or Double.valueOf rejected its input
        (a NumberFormatException, which the source never catches).  */
  datatype Failure = IOError | InvalidLocation | NumberFormat

  datatype Result<+T> = Ok(value: T) | Err(failure: Failure)
}
