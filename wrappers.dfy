/** Optional values: `undefined` in the source's TypeScript becomes `None`. */
module Wrappers {
  datatype Option<+T> = None | Some(value: T)
}
