/** Optional values: a DOM element that may be missing, a hovered item that may be
    null, a "+N more" badge that may be absent. */
module Wrappers {

  datatype Option<+T> = None | Some(value: T)
}
