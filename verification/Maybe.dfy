/** A value or its absence: the source's `undefined` and `null` where the code tests for them. */
module Maybe {

  datatype Option<+T> = None | Some(value: T) {

    function GetOr(default: T): T {
      match this
      case Some(v) => v
      case None => default
    }
  }
}
