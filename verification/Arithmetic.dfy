/** Powers of two and the uniqueness of quotient and remainder. */
module Arithmetic {
  function Pow2(n: nat): (r: nat)
    ensures r > 0
  {
    if n == 0 then 1 else 2 * Pow2(n - 1)
  }

  lemma OnlyZeroFits(d: int, k: int)
    requires -d < d * k < d
    ensures k == 0
  {
  }

  lemma QuotientUnique(v: int, d: int, q: int, r: int)
    requires v == d * q + r && 0 <= r < d
    ensures v / d == q && v % d == r
  {
    var e, f := v / d, v % d;
    assert d * (e - q) == r - f by {
      assert v == d * e + f;
    }
    OnlyZeroFits(d, e - q);
  }

  /** A value lies between its quotient's multiple and the next one. */
  lemma DivisionSpan(v: int, d: int)
    requires d > 0
    ensures v / d * d <= v < v / d * d + d
  {
    assert v == d * (v / d) + v % d;
  }
}
