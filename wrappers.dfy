/** Optional values, standing for the source's `number | null` refs and
    `Array.prototype.find` results that may be `undefined`. */
module Wrappers {

  datatype Option<+T> = None | Some(value: T)
}
