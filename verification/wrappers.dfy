/** The optional-value datatype used throughout the model. */
module Wrappers {

  /** `None` stands for JavaScript's `undefined`/`null` or a missing document. */
  datatype Option<+T> = None | Some(value: T) {

    /** The value, or `default` when there is none (JavaScript's `x || default` on objects). */
    function GetOr(default: T): T {
      match this
      case Some(v) => v
      case None => default
    }
  }
}
