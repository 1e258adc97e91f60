// Facts about products and remainders that several modules need.

module Arithmetic {
  lemma Scale(a: int, b: int, c: int)
    requires a <= b && c >= 0
    ensures a * c <= b * c
  {
  }

  lemma SameRemainder(h: nat, n: nat, q: int, r: nat)
    requires r < n && h == n * q + r
    ensures h % n == r
  {
    var d := h / n - q;
    assert n * d == n * (h / n) - n * q;
    if d >= 1 {
      Scale(1, d, n);
    } else if d <= -1 {
      Scale(d, -1, n);
    }
  }

  /** The remainder by a divisor can be taken from the remainder by a multiple. */
  lemma ModOfMultiple(h: nat, n: nat, k: nat, c: nat)
    requires n > 0 && c > 0 && c == n * k
    ensures h % c % n == h % n
  {
    var q, r := h / c, h % c;
    var s := r / n;
    assert h == c * q + r && r == n * s + r % n;
    assert c * q == n * (k * q);
    assert n * (k * q + s) == n * (k * q) + n * s;
    SameRemainder(h, n, k * q + s, r % n);
  }
}
