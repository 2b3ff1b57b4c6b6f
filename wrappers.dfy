/** A reference that may be missing (Unity's `null` for an unset Transform, prefab or component). */
module Wrappers {
  datatype Option<T> = None | Some(value: T)
}
