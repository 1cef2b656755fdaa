/** Optional values: Go's `error` interface (nil or an error value) and
    operations that may fail are modelled with `Option`. */
module Wrappers {

  datatype Option<+T> = None | Some(value: T)

}
