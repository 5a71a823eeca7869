/** Optional values: `None` stands for JavaScript's `null`/`undefined` where the
    modelled code returns or reads "nothing". */
module Wrappers {

  datatype Option<+T> = None | Some(value: T)
}
