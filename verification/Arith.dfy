/** Facts about products and quotients of variables that the solver does not find by itself. */
module Arith {

  lemma MulMonotone(x: int, y: int, d: int)
    requires 0 <= d
    ensures x <= y ==> x * d <= y * d
  {
  }

  /** Quotient and remainder are the only way to write a number as q * d + r. */
  lemma DivModUnique(q: int, r: int, d: int)
    requires 0 <= r < d
    ensures (q * d + r) / d == q
    ensures (q * d + r) % d == r
  {
    var a := q * d + r;
    var k := a / d;
    assert a == k * d + a % d;
    MulMonotone(q + 1, k, d);
    MulMonotone(k + 1, q, d);
    assert (q + 1) * d == q * d + d;
    assert (k + 1) * d == k * d + d;
  }

  lemma DivMonotone(a: int, b: int, d: int)
    requires 0 < d && a <= b
    ensures a / d <= b / d
  {
    var qa, qb := a / d, b / d;
    assert qa * d <= a && b < qb * d + d;
    MulMonotone(qb + 1, qa, d);
    assert (qb + 1) * d == qb * d + d;
  }

  /** Reducing a position before moving on changes nothing. */
  lemma ModAdd(a: nat, k: nat, d: nat)
    requires 0 < d
    ensures (a % d + k) % d == (a + k) % d
  {
    var q := a / d;
    var r := a % d + k;
    var q2 := r / d;
    assert a + k == q * d + r && r == q2 * d + r % d;
    assert a + k == (q + q2) * d + r % d;
    DivModUnique(q + q2, r % d, d);
  }

  /** Less than a whole turn apart, positions are distinct. */
  lemma ModDistinct(a: nat, j: nat, k: nat, d: nat)
    requires 0 < d && j < k < j + d
    ensures (a + j) % d != (a + k) % d
  {
    var x, y := a + j, a + k;
    var p, q := x / d, y / d;
    assert x == p * d + x % d && y == q * d + y % d;
    if x % d == y % d {
      assert (q - p) * d == k - j;
      MulMonotone(1, q - p, d);
      MulMonotone(q - p, 0, d);
    }
  }

  lemma ModSmall(a: nat, d: nat)
    requires a < d
    ensures a % d == a
  {
    DivModUnique(0, a, d);
  }
}
