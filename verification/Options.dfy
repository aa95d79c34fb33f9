/** Optional values, as `std::optional`, a null pointer or a raised exception gives them. */
module Options {

  datatype Option<+T> = None | Some(value: T)
}
