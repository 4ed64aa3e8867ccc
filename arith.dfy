/** Facts about Euclidean division and remainder used by the range lemmas. */
module Arith {
  function Abs(d: int): nat { if d < 0 then -d else d }

  lemma MulAtLeast(e: int, k: int)
    requires e > 0 && k >= 1
    ensures e * k >= e
  {
    assert e * k == e + e * (k - 1);
  }

  lemma MulApart(a: int, b: int, d: int)
    requires d != 0 && a < b
    ensures Abs(d * b - d * a) >= Abs(d)
  {
    var k := b - a;
    assert d * b - d * a == d * k;
    if d > 0 {
      MulAtLeast(d, k);
    } else {
      MulAtLeast(-d, k);
      assert d * k == -((-d) * k);
    }
  }

  lemma DivModUnique(x: int, d: int, q: int, m: int)
    requires d != 0 && 0 <= m < Abs(d) && x == d * q + m
    ensures x / d == q && x % d == m
  {
    var q', m' := x / d, x % d;
    assert x == d * q' + m' && 0 <= m' < Abs(d);
    if q' < q {
      MulApart(q', q, d);
    } else if q < q' {
      MulApart(q, q', d);
    }
  }

  lemma DivStep(x: int, d: int)
    requires d > 0
    ensures (x + d) / d == x / d + 1
  {
    DivModUnique(x + d, d, x / d + 1, x % d);
  }

  lemma DivOne(x: int, d: int)
    requires 0 < d <= x < 2 * d
    ensures x / d == 1
  {
    DivModUnique(x, d, 1, x - d);
  }

  lemma ModStep(y: int, d: int)
    requires d != 0
    ensures (y - d) % d == y % d
  {
    DivModUnique(y - d, d, y / d - 1, y % d);
  }

  lemma ModSmall(y: int, d: int)
    requires d != 0 && 0 <= y < Abs(d)
    ensures y % d == y
  {
    DivModUnique(y, d, 0, y);
  }

  /**
   * One distributivity step, kept apart so that the grid indexing proof
   * sees no multiplication of two variables.
   */
  lemma MulPred(i: int, n: int)
    ensures i * n == n + (i - 1) * n
  {
  }
}
