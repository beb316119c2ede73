/** Facts about products and remainders that the solver does not find by itself. */
module Arithmetic {
  lemma SubtractProducts(a: int, b: int, m: int)
    ensures a * m - b * m == (a - b) * m
  {}

  lemma RemainderIsUnique(a: int, m: int, q: int, r: int)
    requires 0 <= r < m && a == q * m + r
    ensures a % m == r && a / m == q
  {
    var q', r' := a / m, a % m;
    var d := q - q';
    assert d * m == r' - r by {
      assert a == q' * m + r';
      SubtractProducts(q, q', m);
    }
    ProductGrows(d, m);
  }

  lemma ProductGrows(d: int, m: int)
    requires m > 0
    ensures d >= 1 ==> d * m >= m
    ensures d <= -1 ==> d * m <= -m
  {}

  /** Reducing a quotient by `k` is reducing the whole by `k p`. */
  lemma SplitQuotient(v: nat, p: nat, k: nat)
    requires p > 0 && k > 0
    ensures ((v / p) % k) * p + v % p == v % (k * p)
    ensures (v / p) / k == v / (k * p)
  {
    var q, r := v / p, v % p;
    var u, t := q / k, q % k;
    assert v == u * (k * p) + (t * p + r) by {
      assert v == q * p + r;
      assert q == u * k + t;
      Distribute(u * k, t, p);
      MultiplyAssociates(u, k, p);
    }
    assert 0 <= t * p + r < k * p by {
      Distribute(k - 1 - t, t + 1, p);
      Distribute(t, 1, p);
      ProductNonNegative(t, p);
      ProductNonNegative(k - 1 - t, p);
    }
    RemainderIsUnique(v, k * p, u, t * p + r);
  }

  lemma Distribute(a: int, b: int, c: int)
    ensures (a + b) * c == a * c + b * c
  {}

  lemma ProductNonNegative(a: nat, b: nat)
    ensures 0 <= a * b
  {}

  lemma MultiplyAssociates(a: int, b: int, c: int)
    ensures a * b * c == a * (b * c)
  {}

  /** A row-major index gives back its row and its column. */
  lemma RowAndColumn(side: nat, x: nat, y: nat)
    requires x < side
    ensures (y * side + x) % side == x && (y * side + x) / side == y
  {
    RemainderIsUnique(y * side + x, side, y, x);
  }

  lemma InGrid(side: nat, x: nat, y: nat)
    requires x < side && y < side
    ensures 0 <= y * side + x < side * side
  {
    ProductNonNegative(y, side);
    ProductNonNegative(side - 1 - y, side);
    Distribute(side - 1 - y, y + 1, side);
    Distribute(y, 1, side);
  }

  lemma RowInGrid(side: nat, i: nat)
    requires i < side * side
    ensures side > 0 && i / side < side && i % side < side
    ensures (i / side) * side + i % side == i
  {
    var q := i / side;
    assert q * side <= i;
    SubtractProducts(q, side, side);
    ProductGrows(side - q, side);
    Monotone(q, side, side);
  }

  lemma Monotone(a: int, b: int, c: nat)
    ensures a >= b ==> a * c >= b * c
  {}
}
