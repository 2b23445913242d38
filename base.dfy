/** Small value types shared by every module of the model. */
module Base {

  /** One octet of a response body or of a header value. */
  newtype byte = x: int | 0 <= x < 256

  /** The conventional optional value. */
  datatype Option<+T> = None | Some(value: T)
}
