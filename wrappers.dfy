/** Optional values: the page's nullable state (`FileList | null`) and the
    browser values that may be absent. */
module Wrappers {

  datatype Option<+T> = None | Some(value: T)

}
