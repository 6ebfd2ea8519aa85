/** The optional value used wherever the source passes a nullable reference
    (an absent request parameter, an unset id, an empty `Optional`). */
module Options {

  datatype Option<T> = None | Some(value: T) {

    /** The wrapped value, or `default` when there is none. */
    function GetOr(default: T): T {
      match this
      case Some(v) => v
      case None => default
    }
  }
}
