/** Small shared vocabulary: optional values, results, and the integer
    arithmetic of the JVM where it differs from Dafny's. */
module Base {

  /** A value that may be absent: a Java reference that may be null, or a
      Python value that may be None. */
  datatype Option<T> = None | Some(value: T)

  /** The outcome of an operation that may throw instead of returning. */
  datatype Result<T, E> = Ok(value: T) | Err(error: E)

  /** The outcome of an operation that returns nothing but may throw. */
  datatype Outcome<E> = Pass | Fail(error: E)

  /** Java's `/` on ints: the quotient is truncated toward zero
      (Dafny's own `/` is Euclidean and rounds negative quotients down). */
  function JavaDiv(a: int, b: int): int
    requires b > 0
  {
    if a >= 0 then a / b else -((-a) / b)
  }

  function Max(a: int, b: int): (m: int)
    ensures m >= a && m >= b && (m == a || m == b)
  {
    if a >= b then a else b
  }

  function Min(a: int, b: int): (m: int)
    ensures m <= a && m <= b && (m == a || m == b)
  {
    if a <= b then a else b
  }

  /** Java's `(int) Math.floor(x)` for values in int range. */
  function FloorOf(x: real): (f: int)
    ensures f as real <= x < f as real + 1.0
  {
    x.Floor
  }
}
