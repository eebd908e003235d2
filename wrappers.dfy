/** Option and Result, used for the source's nil results, `ok` flags and error returns. */
module Wrappers {

  datatype Option<+T> = None | Some(value: T)

  /** The errors the modelled code reports, either by returning them or by panicking. */
  datatype Error =
    | ErrBlockSize      // adaptive threshold block size is not an odd number >= 1
    | ErrNotRecognised  // no grid could be located on the image
    | ErrImageSize      // a digit image that is not 28x28
    | ErrIndexOutOfRange  // a matrix view reaching outside the matrix

  datatype Result<+T> = Success(value: T) | Failure(error: Error)
}
