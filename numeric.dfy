/** Option values for the optional configuration entries and result fields. */
module Wrappers {

  datatype Option<+T> = None | Some(value: T) {

    /** The value, or `default` when absent (Python's `d.get(key, default)`). */
    function GetOr(default: T): T {
      match this
      case Some(v) => v
      case None => default
    }
  }

  datatype Result<+R, +E> = Success(value: R) | Failure(error: E)
}

/** Scalar helpers: IEEE-754 doubles as far as the measurement needs them. */
module Numeric {

  /** A double that is either a finite number or NaN / an infinity. */
  datatype Float = Finite(value: real) | NonFinite

  function Abs(x: real): (r: real)
    ensures 0.0 <= r && (r == x || r == -x)
  {
    if x < 0.0 then -x else x
  }

  function MaxReal(a: real, b: real): (r: real)
    ensures a <= r && b <= r && (r == a || r == b)
  {
    if a < b then b else a
  }

  function MinReal(a: real, b: real): (r: real)
    ensures r <= a && r <= b && (r == a || r == b)
  {
    if a < b then a else b
  }

  function MaxInt(a: int, b: int): (r: int)
    ensures a <= r && b <= r && (r == a || r == b)
  {
    if a < b then b else a
  }

  function MinInt(a: int, b: int): (r: int)
    ensures r <= a && r <= b && (r == a || r == b)
  {
    if a < b then a else b
  }

  /** Python's `int(x)` on a float: truncation toward zero. */
  function Trunc(x: real): (r: int)
    ensures 0.0 <= x ==> r as real <= x < r as real + 1.0
    ensures x < 0.0 ==> r as real - 1.0 < x <= r as real
  {
    if 0.0 <= x then x.Floor else -((-x).Floor)
  }

  lemma ProductPositive(y: real, z: real, q: real)
    requires 0.0 < y && 0.0 < z && q == y * z
    ensures 0.0 < q
  {
  }

  lemma NonnegativeProduct(x: real, y: real, p: real)
    requires 0.0 <= x && 0.0 <= y && p == x * y
    ensures 0.0 <= p
  {
  }

  /** Multiplying by a positive number keeps a strict order. */
  lemma ScaleIncreasing(a: real, b: real, k: real)
    requires a < b && 0.0 < k
    ensures a * k < b * k
  {
    ProductPositive(b - a, k, (b - a) * k);
  }

  /** The square `q` of a non-zero number is positive. */
  lemma SquarePositive(x: real, q: real)
    requires x != 0.0 && q == x * x
    ensures 0.0 < q
  {
    if x < 0.0 {
      ProductPositive(-x, -x, q);
    } else {
      ProductPositive(x, x, q);
    }
  }

  lemma SquareNonnegative(x: real)
    ensures 0.0 <= x * x
  {
    var q := x * x;
    if x != 0.0 {
      SquarePositive(x, q);
    } else {
      assert q == 0.0;
    }
  }

  /** A ratio of a non-negative number to a larger positive one lies in [0, 1]. */
  lemma RatioInUnitInterval(x: real, y: real)
    requires 0.0 <= x <= y && 0.0 < y
    ensures 0.0 <= x / y <= 1.0
  {
    assert x / y * y == x;
  }

  lemma DivisionCancels(x: real, d: real, q: real)
    requires d != 0.0 && q == x / d
    ensures q * d == x
  {
  }

  lemma ExactQuotient(x: real, d: real, q: real)
    requires d != 0.0 && x == q * d
    ensures x / d == q
  {
  }

  /** `sqrt` behaves as `np.sqrt` on the non-negative reals. */
  ghost predicate IsSqrt(sqrt: real -> real) {
    forall v: real :: 0.0 <= v ==> 0.0 <= sqrt(v) && sqrt(v) * sqrt(v) == v
  }

  lemma SqrtSquared(sqrt: real -> real, v: real)
    requires IsSqrt(sqrt) && 0.0 <= v
    ensures 0.0 <= sqrt(v) && sqrt(v) * sqrt(v) == v
  {
  }
}
