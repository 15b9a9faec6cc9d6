// Division with remainder and products, as the layout, histogram and field proofs use them.

module Arithmetic {
  lemma MulMono(a: int, b: int, c: nat)
    requires a <= b
    ensures a * c <= b * c
  {
  }

  lemma OneMore(n: int, c: nat)
    ensures (n + 1) * c == n * c + c
    ensures n >= 0 ==> n * c >= 0
  {
  }

  lemma OneQuotient(q: int, r: nat, q': int, r': nat, d: nat)
    requires q * d + r == q' * d + r' && r < d && r' < d
    ensures q == q' && r == r'
  {
    if q < q' { MulMono(q + 1, q', d); }
    if q' < q { MulMono(q' + 1, q, d); }
  }

  lemma DivModUnique(q: int, r: nat, d: nat)
    requires r < d
    ensures (q * d + r) / d == q && (q * d + r) % d == r
  {
    var n := q * d + r;
    assert n == n / d * d + n % d;
    OneQuotient(q, r, n / d, n % d, d);
  }

  lemma QuotientBelow(n: nat, q: nat, d: nat)
    requires d > 0 && n < q * d
    ensures n / d < q && n == n / d * d + n % d
  {
    if n / d >= q { MulMono(q, n / d, d); }
  }

  // `row * stride + col` stays below `rows * stride`.
  lemma GridBound(row: nat, col: nat, rows: nat, stride: nat)
    requires row < rows && col < stride
    ensures row * stride + col < rows * stride
  {
    MulMono(row + 1, rows, stride);
  }
}
