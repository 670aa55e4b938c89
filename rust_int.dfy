/// Integer semantics of the Rust operators the model relies on.
/// Dafny's `/` is Euclidean; Rust's `/` on `i32` truncates toward zero.
module RustInt {

  /** Rust's `a / d` on signed integers for a positive divisor: the quotient
      is truncated toward zero, so the remainder takes the sign of `a`. */
  function Quot(a: int, d: int): (q: int)
    requires d > 0
    ensures a >= 0 ==> 0 <= a - d * q < d
    ensures a < 0 ==> -d < a - d * q <= 0
  {
    if a >= 0 then a / d else -((-a) / d)
  }
}
