/** Optional values: Python's `None`, a JavaScript `null` field or an unset attribute. */
module Wrappers {

  datatype Option<+T> = None | Some(value: T)

}
