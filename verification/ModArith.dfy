/** Facts about / and % by a positive variable that the verifier does not find by itself. */
module ModArith {
  lemma ModUnique(x: int, m: int, q: int, r: int)
    requires 0 <= r < m && x == q * m + r
    ensures x / m == q && x % m == r
  {
    var d := x / m - q;
    assert m * d == r - x % m;
    assert d >= 1 ==> m * d >= m;
    assert d <= -1 ==> m * d <= -m;
  }

  lemma ModShift(a: int, b: int, m: int)
    requires m > 0
    ensures (a % m + b) % m == (a + b) % m
  {
    var q, r := (a + b) / m, (a + b) % m;
    assert a % m + b == (q - a / m) * m + r;
    ModUnique(a % m + b, m, q - a / m, r);
  }

  lemma ModDistinct(a: int, b: int, m: int)
    requires 0 < m && 0 < b - a < m
    ensures a % m != b % m
  {
    var d := b / m - a / m;
    assert b - a == m * d + b % m - a % m;
    assert d <= 0 ==> m * d <= 0;
    assert d >= 1 ==> m * d >= m;
  }

  lemma DivNat(x: nat, m: nat)
    requires m > 0
    ensures x / m >= 0
  {
  }

  lemma DivMonotone(x: int, y: int, m: int)
    requires m > 0 && x <= y
    ensures x / m <= y / m
  {
    var d := x / m - y / m;
    assert m * d == x - y - x % m + y % m;
    assert d >= 1 ==> m * d >= m;
  }

  /** x / m is the one q with q * m <= x < (q + 1) * m. */
  lemma DivBounds(x: int, m: int)
    requires m > 0
    ensures x / m * m <= x < (x / m + 1) * m
    ensures x - x % m == x / m * m
  {
    assert x == x / m * m + x % m;
    assert (x / m + 1) * m == x / m * m + m;
  }

  lemma MulDiv(q: int, m: int)
    requires m > 0
    ensures q * m / m == q && (q * m) % m == 0
  {
    ModUnique(q * m, m, q, 0);
  }
}
