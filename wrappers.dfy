/** Optional values: `None` stands for JavaScript's `null`, `undefined` and `NaN`
    wherever the script can meet them. */
module Wrappers {
  datatype Option<+T> = None | Some(value: T)
}
