/** Option and Result values shared by every module of the model. */
module Wrappers {

  datatype Option<+T> = None | Some(value: T) {
    /** The carried value, or `default` when there is none. */
    function GetOr(default: T): T
    {
      match this
      case Some(v) => v
      case None => default
    }
  }

  datatype Result<+R, +E> = Success(value: R) | Failure(error: E)

  /** Python's `dict.get(key, default)` on a map. */
  function GetOrDefault<K, V>(m: map<K, V>, key: K, default: V): V
  {
    if key in m then m[key] else default
  }
}
