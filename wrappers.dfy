/** Optional values: the model of TypeScript's `T | null` and of optional record fields (`x?: T`). */
module Wrappers {

  datatype Option<+T> = None | Some(value: T)
}
