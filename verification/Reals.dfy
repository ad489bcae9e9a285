/** Real arithmetic the statistics share: products and quotients in small steps, square roots, sums. */
module Reals {
  /** The non-negative square root. */
  ghost predicate IsRoot(sqrt: real -> real) {
    forall x | 0.0 <= x :: 0.0 <= sqrt(x) && sqrt(x) * sqrt(x) == x
  }

  lemma Times(x: real, y: real) returns (z: real)
    requires 0.0 < x && 0.0 < y
    ensures z == x * y && 0.0 < z
  {
    z := x * y;
  }

  lemma ProductMonotone(a: real, b: real, c: real)
    requires a <= b && 0.0 <= c
    ensures a * c <= b * c
  {
  }

  lemma ProductStrict(a: real, b: real, c: real)
    requires a < b && 0.0 < c
    ensures a * c < b * c
  {
  }

  lemma ProductAtMost(a: real, b: real, c: real) returns (p: real)
    requires a <= b && 0.0 <= c
    ensures p == a * c && p <= b * c
  {
    p := a * c;
  }

  lemma ProductBelow(a: real, b: real, c: real) returns (p: real)
    requires a < b && 0.0 < c
    ensures p == a * c && p < b * c
  {
    p := a * c;
  }

  lemma NotNegative(x: real, y: real) returns (z: real)
    requires 0.0 <= x && 0.0 <= y
    ensures z == x * y && 0.0 <= z
  {
    z := x * y;
  }

  lemma BothAtMost(x: real, y: real, u: real, v: real)
    requires 0.0 <= x <= u && 0.0 <= y <= v
    ensures x * y <= u * v
  {
    ProductMonotone(x, u, y);
    ProductMonotone(y, v, u);
  }

  lemma SquaresDiffer(a: real, b: real)
    requires 0.0 <= a < b
    ensures a * a < b * b
  {
    var q := ProductBelow(a, b, b);
    var p := ProductAtMost(a, b, a);
  }

  lemma SquareIsNotNegative(x: real)
    ensures 0.0 <= x * x
  {
  }

  lemma Cancel(x: real, y: real, z: real)
    requires 0.0 < z && x * z < y * z
    ensures x < y
  {
    if y < x {
      ProductMonotone(y, x, z);
    }
  }

  lemma Quotient(a: real, b: real)
    requires 0.0 < b
    ensures a / b * b == a
    ensures 0.0 < a ==> 0.0 < a / b
  {
  }

  lemma FractionLess(a: real, b: real, c: real, d: real)
    requires 0.0 < b && 0.0 < d && a * d < c * b
    ensures a / b < c / d
  {
    Quotient(a, b);
    Quotient(c, d);
    ProductStrict(0.0, b, d);
    assert a / b * (b * d) == a / b * b * d;
    assert c / d * (b * d) == c / d * d * b;
    Cancel(a / b, c / d, b * d);
  }

  lemma SameByProduct(x: real, y: real, z: real)
    requires 0.0 < z && x * z == y * z
    ensures x == y
  {
    if x < y {
      ProductStrict(x, y, z);
    } else if y < x {
      ProductStrict(y, x, z);
    }
  }

  lemma FractionAtMost(x: real, y: real, z: real)
    requires x <= y && 0.0 < z
    ensures x / z <= y / z
  {
    if x < y {
      ProductStrict(x, y, z);
      FractionLess(x, z, y, z);
    }
  }

  lemma SquaresOrder(a: real, b: real)
    requires 0.0 <= a && 0.0 <= b && a * a < b * b
    ensures a < b
  {
    if b < a {
      SquaresDiffer(b, a);
    }
  }

  function Sum(values: seq<real>): real {
    if values == [] then 0.0 else Sum(values[..|values| - 1]) + values[|values| - 1]
  }
}
