/** What the models of the kernel module and of the utilities share. */
module Basics {

  datatype Option<+T> = None | Some(value: T)

  /** The byte that ends a C string. */
  const NUL: char := 0 as char
}
