/** Option and the outcome of a Python call: a returned value or a raised exception. */
module Wrappers {

  datatype Option<+T> = None | Some(value: T)

  /** The exceptions the modelled code raises, deliberately (FuseOSError) or not. */
  datatype Exception =
    | IndexError       // `path[-1]` on an empty string, `tracks[0]` on no tracks
    | KeyError         // a missing key in a dict lookup
    | AttributeError   // an attribute read on `None`, or `.channel` on a message that has none
    | FuseOSError(errno: int)

  /** errno.ENOENT on Linux */
  const ENOENT := 2

  /** A Python call either returns a value or raises an exception. */
  datatype Result<+T> = Ok(value: T) | Raise(exception: Exception)
}
