/** Optional values: the model's stand-in for a Java reference that may be null. */
module Wrappers {

  datatype Option<+T> = None | Some(value: T) {

    /** The value, or `default` when there is none (Java's `Optional.orElse`). */
    function GetOr(default: T): (r: T)
      ensures Some? ==> r == value
      ensures None? ==> r == default
    {
      match this
      case Some(v) => v
      case None => default
    }
  }

  /** The outcome of a computation that may throw: `Throws` stands for an
      exception escaping the Java code (a NullPointerException, a
      NumberFormatException, ...). */
  datatype Result<+T> = Ok(value: T) | Throws
}
