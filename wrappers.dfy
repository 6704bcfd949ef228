/** The optional value used wherever the source may yield "nothing": a missing
    regular-expression match (`null`) or a thrown TypeError. */
module Wrappers {
  datatype Option<+T> = None | Some(value: T)
}
