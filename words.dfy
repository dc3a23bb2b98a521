/** Fixed-width integers of the Rust source, and the two places where Rust
    integer arithmetic differs from Dafny's unbounded, Euclidean arithmetic:
    `/` truncates toward zero, and `as i32` keeps the low 32 bits. */
module Words {

  const TWO_16: int := 0x1_0000
  const TWO_31: int := 0x8000_0000
  const TWO_32: int := 0x1_0000_0000
  const TWO_63: int := 0x8000_0000_0000_0000

  type U8 = x: int | 0 <= x < 0x100
  type U16 = x: int | 0 <= x < 0x1_0000
  type U64 = x: int | 0 <= x < 0x1_0000_0000_0000_0000
  type I32 = x: int | -0x8000_0000 <= x < 0x8000_0000

  predicate InI32(x: int) { -TWO_31 <= x < TWO_31 }
  predicate InI64(x: int) { -TWO_63 <= x < TWO_63 }

  /** Rust's `a / b` on signed integers, for a positive divisor: the quotient
      is rounded toward zero, so the remainder takes the sign of `a`. */
  function TruncDiv(a: int, b: int): (q: int)
    requires b > 0
    ensures a >= 0 ==> 0 <= a - q * b < b
    ensures a <= 0 ==> -b < a - q * b <= 0
  {
    if a >= 0 then a / b else -((-a) / b)
  }

  /** A larger dividend never gives a smaller quotient. */
  lemma TruncDivMonotone(a1: int, a2: int, b: int)
    requires b > 0 && a1 <= a2
    ensures TruncDiv(a1, b) <= TruncDiv(a2, b)
  {
    var q1, q2 := TruncDiv(a1, b), TruncDiv(a2, b);
    if a1 < 0 < a2 {
      DivNonNegative(-a1, b);
      DivNonNegative(a2, b);
    } else if q1 > q2 {
      // the quotients are a whole divisor apart, more than the remainders allow
      MulGap(q1, q2, b);
      assert false;
    }
  }

  lemma DivNonNegative(a: int, b: int)
    requires a >= 0 && b > 0
    ensures a / b >= 0
  {
  }

  lemma MulGap(q1: int, q2: int, b: int)
    requires q1 > q2 && b > 0
    ensures q1 * b >= q2 * b + b
  {
    var k := q1 - q2 - 1;
    assert k >= 0;
    assert k * b >= 0;
    assert q1 * b == q2 * b + b + k * b;
  }

  /** Rust's `x as i32` on an `i64`: keeps the low 32 bits, read as two's
      complement. */
  function WrapI32(x: int): (r: I32)
    ensures (x - r) % TWO_32 == 0
    ensures InI32(x) ==> r == x
  {
    var m := x % TWO_32;
    if m < TWO_31 then m else m - TWO_32
  }
}
