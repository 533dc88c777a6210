/** The optional value used wherever a document field or a lookup may be absent. */
module Wrappers {

  /** `None` stands for Python's `None` and for a key missing from a document. */
  datatype Option<+T> = None | Some(value: T) {

    /** Returns the encapsulated value, or `default` when there is none. */
    function GetOr(default: T): T {
      match this
      case Some(v) => v
      case None => default
    }
  }
}
