/** The optional value used for a missing due date, a missing status filter
    and the result of a search by id. */
module Options {

  datatype Option<T> = None | Some(value: T) {

    /** The value held, or `default` when there is none. */
    function GetOr(default: T): T
    {
      match this
      case Some(v) => v
      case None => default
    }
  }
}
