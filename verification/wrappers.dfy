/** Optional values, used for glyph lookups that may find nothing and for
    averages or extents that do not exist when there are no quads. */
module Wrappers {

  datatype Option<+T> = None | Some(value: T) {

    /** Returns the value held in Some, or `default` when None. */
    function GetOr(default: T): T {
      match this
      case Some(v) => v
      case None => default
    }
  }
}
