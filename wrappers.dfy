/** Optional values, standing for Python's "value or nothing" (an omitted keyword
    argument, a token that contributes no index). */
module Wrappers {

  datatype Option<+T> = None | Some(value: T) {

    /** The carried value, or `default` when there is none. */
    function GetOr(default: T): T {
      match this
      case Some(v) => v
      case None => default
    }

    /** The carried value as a one-element sequence, or the empty sequence. */
    function ToSeq(): (s: seq<T>)
      ensures |s| <= 1 && (Some? <==> |s| == 1) && (Some? ==> s[0] == value)
    {
      match this
      case Some(v) => [v]
      case None => []
    }
  }
}
