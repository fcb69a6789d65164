/** Facts about products, quotients and remainders. */
module Arithmetic {

  lemma ModShift(d: int, m: int)
    requires m >= 1
    ensures (d - m) % m == d % m
  {
    assert d == (d / m) * m + d % m;
    assert d - m == (d / m - 1) * m + d % m;
    ModUnique(d - m, m, d / m - 1, d % m);
  }

  lemma MulMono(k: int, m: int)
    requires m >= 1
    ensures k >= 1 ==> k * m >= m
    ensures k <= -1 ==> k * m <= -m
  {
    if k >= 1 { assert (k - 1) * m >= 0; }
    if k <= -1 { assert (-k - 1) * m >= 0; assert (-k - 1) * m == -(k * m) - m; }
  }

  lemma ModUnique(x: int, m: int, q: int, r: int)
    requires m >= 1 && x == q * m + r && 0 <= r < m
    ensures x / m == q && x % m == r
  {
    var k := x / m - q;
    assert x == (x / m) * m + x % m;
    assert k * m == (x / m) * m - q * m;
    MulMono(k, m);
  }

  lemma SmallMod(d: int, m: int)
    requires 0 < d < m
    ensures d % m != 0
  {
    ModUnique(d, m, 0, d);
  }

  lemma MulLe(a: int, b: int, m: int)
    requires a <= b && m >= 0
    ensures a * m <= b * m
  {
    assert (b - a) * m >= 0;
  }

  lemma ModSplit(t: nat, p: nat)
    requires p > 0
    ensures t % (64 * p) == ((t / 64) % p) * 64 + t % 64
  {
    var q, r := t / 64, t % 64;
    var k, m := q / p, q % p;
    QuotRem(q, p);
    DistributeMul(k, p, m, r);
    ModUnique(t, 64 * p, k, m * 64 + r);
  }

  lemma QuotRem(q: nat, p: nat)
    requires p > 0
    ensures q == (q / p) * p + q % p
  {
  }

  lemma DistributeMul(k: nat, p: nat, m: nat, r: nat)
    ensures (k * p + m) * 64 + r == (64 * p) * k + (m * 64 + r)
  {
  }
}
