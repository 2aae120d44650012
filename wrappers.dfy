/** An optional value: JavaScript's `T | null` / `T | undefined`, and a result that may be absent. */
module Wrappers {

  datatype Option<+T> = None | Some(value: T)
}
