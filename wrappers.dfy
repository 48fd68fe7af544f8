/** Optional values: a component an entity may lack, a swapchain texture that may not be acquired. */
module Wrappers {
  datatype Option<+T> = None | Some(value: T)
}
