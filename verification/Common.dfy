/** Small datatypes shared by the models. */
module Common {
  datatype Option<+T> = None | Some(value: T) {
    function GetOr(default: T): T { if Some? then value else default }
  }

  /** The error codes the modelled operations can return. */
  datatype Code = NotFound | Conflict | AlreadyExists | InvalidArgument | FailedPrecond | Unavailable | Canceled | Timeout | Exhausted | Internal

  datatype Result<+T> = Ok(value: T) | Err(code: Code)

  /** No element occurs at two positions. */
  ghost predicate Distinct<T>(s: seq<T>) {
    forall i, j :: 0 <= i < j < |s| ==> s[i] != s[j]
  }
}
