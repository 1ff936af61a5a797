/** Non-linear arithmetic, one step at a time. */
module Arithmetic {
  lemma MulAssoc(x: int, y: int, z: int)
    ensures x * y * z == x * (y * z)
  {
  }

  lemma MulLe(x: int, y: int, z: int)
    requires x <= y && z >= 0
    ensures x * z <= y * z
  {
  }

  lemma MulDistrib(x: int, y: int, z: int)
    ensures (x + y) * z == x * z + y * z
    ensures z * (x + y) == z * x + z * y
  {
  }

  lemma QuotientUnique(a: int, b: int, q: int, r: int, p: nat)
    requires a * p + b == q * p + r && 0 <= b < p && 0 <= r < p
    ensures a == q
  {
    if q > a {
      MulLe(a + 1, q, p);
      MulDistrib(a, 1, p);
      assert false;
    } else if q < a {
      MulLe(q + 1, a, p);
      MulDistrib(q, 1, p);
      assert false;
    }
  }

  /** A number written as quotient and remainder divides accordingly. */
  lemma DivideOff(a: nat, b: nat, n: nat, p: nat)
    requires p > 0 && n == a * p + b && b < p
    ensures n / p == a && n % p == b
  {
    QuotientUnique(a, b, n / p, n % p, p);
  }
}
