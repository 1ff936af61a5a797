/** Bitwise operations on natural numbers, as far as field packing needs them. */
module Bits {
  import opened Arithmetic

  function Pow2(k: nat): (r: nat)
    ensures r >= 1
  {
    if k == 0 then 1 else 2 * Pow2(k - 1)
  }

  function BitOr(x: nat, y: nat): nat {
    if x == 0 then y
    else if y == 0 then x
    else 2 * BitOr(x / 2, y / 2) + if x % 2 == 1 || y % 2 == 1 then 1 else 0
  }

  function BitAnd(x: nat, y: nat): nat {
    if x == 0 || y == 0 then 0
    else 2 * BitAnd(x / 2, y / 2) + if x % 2 == 1 && y % 2 == 1 then 1 else 0
  }

  function Rem(x: nat, p: nat): nat
    requires p > 0
  {
    x % p
  }

  /** Disjoint fields: the low `k` bits of one number, the rest of the other. */
  lemma {:induction false} OrIsSum(a: nat, b: nat, k: nat)
    requires b < Pow2(k)
    ensures BitOr(a * Pow2(k), b) == a * Pow2(k) + b
  {
    if k == 0 {
      assert a * Pow2(0) == a;
    } else {
      OrIsSum(a, b / 2, k - 1);
      MulAssoc(a, 2, Pow2(k - 1));
      MulAssoc(2, a, Pow2(k - 1));
      OrDoubled(a * Pow2(k - 1), b);
    }
  }

  lemma OrDoubled(x: nat, b: nat)
    requires BitOr(x, b / 2) == x + b / 2
    ensures BitOr(2 * x, b) == 2 * x + b
  {
    assert 2 * x / 2 == x && 2 * x % 2 == 0;
  }

  /** Masking with `2^k - 1` keeps the low `k` bits. */
  lemma {:induction false} AndIsMod(x: nat, k: nat)
    ensures BitAnd(x, Pow2(k) - 1) == Rem(x, Pow2(k))
  {
    AndZero(x);
    hide BitAnd, Rem;
    RemOne(x);
    if k > 0 {
      AndIsMod(x / 2, k - 1);
      MaskStep(x, Pow2(k - 1));
    }
  }

  lemma RemOne(x: nat)
    ensures Rem(x, 1) == 0
  {
  }

  lemma MaskStep(x: nat, p: nat)
    requires p > 0 && BitAnd(x / 2, p - 1) == Rem(x / 2, p)
    ensures BitAnd(x, 2 * p - 1) == Rem(x, 2 * p)
  {
    AndHalves(x, p - 1);
    hide BitAnd, Rem;
    ModHalves(x, p);
    assert 2 * (p - 1) + 1 == 2 * p - 1;
  }

  lemma AndZero(x: nat)
    ensures BitAnd(x, 0) == 0
  {
  }

  lemma AndHalves(x: nat, m: nat)
    ensures BitAnd(x, 2 * m + 1) == 2 * BitAnd(x / 2, m) + x % 2
  {
    assert (2 * m + 1) / 2 == m && (2 * m + 1) % 2 == 1;
  }

  lemma ModHalves(x: nat, p: nat)
    requires p > 0
    ensures Rem(x, 2 * p) == 2 * Rem(x / 2, p) + x % 2
  {
    var q, r := (x / 2) / p, (x / 2) % p;
    var low := 2 * r + x % 2;
    assert x / 2 == q * p + r;
    assert x == q * (2 * p) + low;
    DivideOff(q, low, x, 2 * p);
  }
}
