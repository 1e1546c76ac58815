/** Division with remainder. */
module Arithmetic {
  lemma MultipleIsLarge(d: nat, k: nat)
    requires d >= 1
    ensures d * k >= k
  {
    assert d * k == (d - 1) * k + k;
  }

  lemma Distributes(a: nat, b: nat, k: nat)
    requires a >= b
    ensures (a - b) * k == a * k - b * k
  {
  }

  lemma QuotientIsUnique(k: nat, a: nat, r: nat, b: nat, s: nat)
    requires r < k && s < k && a * k + r == b * k + s
    ensures a == b && r == s
  {
    if a > b {
      Distributes(a, b, k);
      MultipleIsLarge(a - b, k);
    } else if b > a {
      Distributes(b, a, k);
      MultipleIsLarge(b - a, k);
    }
  }

  lemma ModOfShift(q: nat, k: nat, r: nat)
    requires r < k
    ensures (q * k + r) % k == r
  {
    var n := q * k + r;
    assert n == (n / k) * k + n % k;
    QuotientIsUnique(k, q, r, n / k, n % k);
  }

  lemma DivModOf(q: nat, k: nat, r: nat)
    requires r < k
    ensures (q * k + r) / k == q && (q * k + r) % k == r
  {
    var n := q * k + r;
    assert n == (n / k) * k + n % k;
    QuotientIsUnique(k, q, r, n / k, n % k);
  }
}
