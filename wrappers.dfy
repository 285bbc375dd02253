/** Small value wrappers shared by every module of the model. */
module Wrappers {

  /** A JavaScript value that may be `undefined`/`null` (None) or present (Some). */
  datatype Option<T> = None | Some(value: T) {
    function GetOr(default: T): T {
      match this
      case Some(v) => v
      case None => default
    }
  }

  /**
   * The outcome of a Mongoose lookup such as `Model.findById(id)`: a document,
   * `null` (no such document), or a thrown error (for instance a cast error on
   * a malformed id), which the handlers turn into a 500 response.
   */
  datatype Lookup<T> = Found(doc: T) | Missing | LookupFailed

  /**
   * Where the source has a defect (README, Findings), the operation takes a
   * variant: the code as it is written, or the evidently intended behaviour.
   */
  datatype Variant = AsWritten | Corrected
}
