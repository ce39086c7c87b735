/** What the whole project uses: the optional value for pointers that may be NULL, and the range of an int. */
module Wrappers {
  const INT_MAX: int := 0x7fff_ffff

  datatype Option<+T> = None | Some(value: T)
}
