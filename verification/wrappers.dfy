/** Optional values, used wherever the modelled JavaScript can produce "nothing"
    (a failed parse, a missing record, a missing property). */
module Wrappers {

  datatype Option<+T> = None | Some(value: T)
}
