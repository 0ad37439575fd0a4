/** The Python 2 integer and float-to-integer operators the tracker relies on.
    Dafny's `/` and `%` are Euclidean; Python floors, and `int(x)` on a float
    truncates toward zero, so each is written out here. */
module PyArith {

  /** `int(x)` for a float `x`: the integer part, rounding toward zero. */
  function TruncToInt(x: real): (r: int)
    ensures 0.0 <= x ==> r as real <= x < r as real + 1.0
    ensures x < 0.0 ==> r as real - 1.0 < x <= r as real
  {
    if x >= 0.0 then x.Floor else -((-x).Floor)
  }

  /** `a / b` on Python 2 integers: the floor of the exact quotient.
      Python raises ZeroDivisionError for `b == 0`; no caller divides by zero. */
  function FloorDiv(a: int, b: int): (q: int)
    requires b != 0
    ensures b > 0 ==> b * q <= a < b * q + b
    ensures b < 0 ==> b * q + b < a <= b * q
  {
    if b > 0 then a / b else (-a) / (-b)
  }

  /** `a % b` on Python integers: the remainder that goes with `FloorDiv`,
      carrying the sign of the divisor. */
  function FloorMod(a: int, b: int): (r: int)
    requires b != 0
    ensures a == b * FloorDiv(a, b) + r
    ensures b > 0 ==> 0 <= r < b
    ensures b < 0 ==> b < r <= 0
  {
    a - b * FloorDiv(a, b)
  }
}
