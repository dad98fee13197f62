/** Option, for values the source may leave absent (`undefined`, `null`, NaN). */
module Wrappers {
  datatype Option<+T> = None | Some(value: T)
}
