/** Optional values: a sysfs attribute that could not be read, a key std::map does not hold. */
module Wrappers {
  datatype Option<+T> = None | Some(value: T)
}
