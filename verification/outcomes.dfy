/** Result values and the errors the compositor reports. */
module Outcomes {

  /** Either the value an operation produced or the error it raised. */
  datatype Result<+T, +E> = Success(value: T) | Failure(error: E)

  /** Why a merge produced no canvas. */
  datatype MergeError =
    | TooFewImages          // fewer than two `.png` names in the folder listing
    | BandTallerThanImage   // a normalised image is shorter than the subtitle band
}
