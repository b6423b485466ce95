/** Small value types shared by the modules of the model. */
module Common {

  /** An optional value (the source's `optional<T>`, a nullable pointer, or an unset thread id). */
  datatype Option<+T> = None | Some(value: T)

  /** Smaller of two integers, as `std::min`. */
  function Min(a: int, b: int): int
  {
    if a <= b then a else b
  }
}
