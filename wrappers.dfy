/** Optional values: the model's stand-in for a JavaScript `null` / `undefined` result. */
module Wrappers {
  datatype Option<T> = None | Some(value: T)
  {
    function GetOr(default: T): T
    {
      if Some? then value else default
    }
  }
}
