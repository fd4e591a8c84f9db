/** Bitwise operations on non-negative integers, and the facts that let packed fields be read back. */
module Bits {

  function Pow2(k: nat): (p: nat)
    ensures p > 0
  {
    if k == 0 then 1 else 2 * Pow2(k - 1)
  }

  function Or(a: nat, b: nat): (r: nat)
    decreases a + b
  {
    if a == 0 then b else if b == 0 then a
    else 2 * Or(a / 2, b / 2) + (if a % 2 == 1 || b % 2 == 1 then 1 else 0)
  }

  function And(a: nat, b: nat): (r: nat)
    decreases a + b
  {
    if a == 0 || b == 0 then 0
    else 2 * And(a / 2, b / 2) + (if a % 2 == 1 && b % 2 == 1 then 1 else 0)
  }

  function Shl(a: nat, k: nat): (r: nat) {
    ProductGrows(0, a, Pow2(k));
    a * Pow2(k)
  }

  function Shr(a: nat, k: nat): (r: nat) {
    QuotientIsNatural(a, Pow2(k));
    a / Pow2(k)
  }

  lemma ProductGrows(x: int, y: int, p: nat)
    requires x <= y
    ensures x * p <= y * p
  {
  }

  lemma QuotientIsNatural(a: nat, p: nat)
    requires p > 0
    ensures a / p >= 0
  {
    if a / p < 0 { ProductGrows(a / p, -1, p); }
  }

  /** Quotient and remainder are unique. */
  lemma Unique(q: int, r: int, s: int, t: int, p: nat)
    requires 0 <= r < p && 0 <= t < p && q * p + r == s * p + t
    ensures q == s && r == t
  {
    if q < s { ProductGrows(q + 1, s, p); }
    if s < q { ProductGrows(s + 1, q, p); }
  }

  lemma DivMod(q: int, p: nat, r: int)
    requires 0 <= r < p
    ensures (q * p + r) / p == q && (q * p + r) % p == r
  {
    var n := q * p + r;
    assert n == (n / p) * p + n % p;
    Unique(q, r, n / p, n % p, p);
  }

  lemma {:induction false} Pow2Adds(a: nat, b: nat)
    ensures Pow2(a + b) == Pow2(a) * Pow2(b)
  {
    if a > 0 {
      Pow2Adds(a - 1, b);
      Doubled(Pow2(a - 1), Pow2(b));
    }
  }

  lemma Doubled(x: int, y: int)
    ensures 2 * (x * y) == (2 * x) * y
  {
  }

  /** Setting bits below a multiple of 2^k adds them. */
  lemma {:induction false} OrDisjoint(high: nat, k: nat, low: nat)
    requires low < Pow2(k)
    ensures Or(high * Pow2(k), low) == high * Pow2(k) + low
    decreases k
  {
    if k > 0 && high > 0 && low > 0 {
      var h := high * Pow2(k - 1);
      assert high * Pow2(k) == 2 * h by { assert high * (2 * Pow2(k - 1)) == 2 * (high * Pow2(k - 1)); }
      OrDisjoint(high, k - 1, low / 2);
      assert (2 * h) / 2 == h && (2 * h) % 2 == 0;
    }
  }

  /** A mask of k ones keeps the remainder by 2^k. */
  lemma {:induction false} AndMask(a: nat, k: nat)
    ensures And(a, Pow2(k) - 1) == a % Pow2(k)
    decreases k
  {
    if k == 0 {
      assert Pow2(0) == 1;
    } else {
      AndMask(a / 2, k - 1);
      MaskDoubles(a, Pow2(k - 1));
    }
  }

  lemma MaskDoubles(a: nat, p: nat)
    requires p > 0 && And(a / 2, p - 1) == (a / 2) % p
    ensures And(a, 2 * p - 1) == a % (2 * p)
  {
    HalfRemainder(a, p);
    MaskStep(a, p);
  }

  lemma MaskStep(a: nat, p: nat)
    requires p > 0
    ensures And(a, 2 * p - 1) == 2 * And(a / 2, p - 1) + a % 2
  {
    assert (2 * p - 1) / 2 == p - 1 && (2 * p - 1) % 2 == 1;
  }

  lemma HalfRemainder(a: nat, p: nat)
    requires p > 0
    ensures a % (2 * p) == 2 * ((a / 2) % p) + a % 2
  {
    var q, r := (a / 2) / p, (a / 2) % p;
    assert a / 2 == q * p + r;
    assert q * (2 * p) == 2 * (q * p);
    DivMod(q, 2 * p, 2 * r + a % 2);
  }
}
