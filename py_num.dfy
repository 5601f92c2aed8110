/** Python's numeric conversions and operators, written out over Dafny's
    unbounded `int` and exact `real` (so no IEEE rounding is modelled). */
module PyNum {

  /** `int(r)` on a float: truncation toward zero. */
  function Trunc(r: real): (t: int)
    ensures 0.0 <= r ==> t as real <= r < t as real + 1.0
    ensures r < 0.0 ==> t as real - 1.0 < r <= t as real
  {
    if r >= 0.0 then r.Floor else -((-r).Floor)
  }

  /** `a % m` on floats with a positive divisor: the result takes the sign of
      the divisor, so it lies in [0, m), and differs from `a` by a whole
      multiple of `m`. */
  function FloatMod(a: real, m: real): (r: real)
    requires m > 0.0
    ensures 0.0 <= r < m
    ensures ((a - r) / m).Floor as real == (a - r) / m
  {
    var q := (a / m).Floor;
    FloorBounds(a, m, q);
    assert a - (a - q as real * m) == q as real * m;
    assert (q as real * m) / m == q as real;
    a - q as real * m
  }

  lemma FloorBounds(a: real, m: real, q: int)
    requires m > 0.0 && q == (a / m).Floor
    ensures 0.0 <= a - q as real * m < m
  {
    var d := a / m - q as real;
    assert 0.0 <= d < 1.0;
    assert a - q as real * m == d * m;
    assert 0.0 <= d * m;
    assert 0.0 < (1.0 - d) * m;
  }

  /** `a // b` on floats with a positive divisor: the floor of the quotient. */
  function FloatFloorDiv(a: real, b: real): (r: real)
    requires b > 0.0
    ensures r.Floor as real == r
    ensures r * b <= a < r * b + b
  {
    var q := (a / b).Floor;
    FloorBounds(a, b, q);
    q as real
  }

  /** `a // b` on ints: the floor of the quotient, for either sign of `b`
      (Dafny's own `/` is Euclidean and differs for a negative divisor). */
  function FloorDiv(a: int, b: int): (q: int)
    requires b != 0
    ensures b > 0 ==> q * b <= a < q * b + b
    ensures b < 0 ==> q * b + b < a <= q * b
  {
    if b > 0 then a / b else (-a) / (-b)
  }

  function MaxInt(a: int, b: int): int { if a >= b then a else b }

  function MinReal(a: real, b: real): real { if a <= b then a else b }
}
