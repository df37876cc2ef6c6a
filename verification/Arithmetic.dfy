/** 64-bit integers, the smaller and larger of two, and division. */
module Arithmetic {
  const MIN_INT64 := -0x8000_0000_0000_0000
  const MAX_INT64 := 0x7fff_ffff_ffff_ffff

  function Min(a: int, b: int): int {
    if a <= b then a else b
  }

  function Max(a: int, b: int): int {
    if a >= b then a else b
  }

  lemma {:induction false} MulFromZero(k: int, n: int)
    requires k > 0 && n != 0
    ensures k * n >= k || k * n <= -k
    decreases if n < 0 then -n else n
  {
    if n > 1 {
      MulFromZero(k, n - 1);
      assert k * n == k * (n - 1) + k;
    } else if n < -1 {
      MulFromZero(k, n + 1);
      assert k * n == k * (n + 1) - k;
    }
  }

  /** Quotient and remainder are the only such numbers. */
  lemma QuotientIs(x: int, k: int, q: int, r: int)
    requires 0 <= r < k && x == k * q + r
    ensures x / k == q && x % k == r
  {
    var q', r' := x / k, x % k;
    assert x == k * q' + r';
    assert k * (q' - q) == r - r' by {
      assert k * (q' - q) == k * q' - k * q;
    }
    if q' != q {
      MulFromZero(k, q' - q);
    }
  }
}
