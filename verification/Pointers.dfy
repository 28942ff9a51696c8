module Pointers {

  /** A pointer argument that may be null. */
  datatype Given<T> = NoPointer | Given(value: T)
}
