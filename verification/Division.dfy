/** Nonlinear facts about quotients and remainders. */
module Division {

  lemma MulMonotone(x: nat, y: nat, m: nat)
    requires x <= y
    ensures x * m <= y * m
    ensures (x + 1) * m == x * m + m
  {
    assert y * m == x * m + (y - x) * m;
  }

  /** A quotient and remainder are determined by the number they stand for. */
  lemma Unique(q: nat, r: nat, a: nat, b: nat, m: nat)
    requires r < m && b < m && q * m + r == a * m + b
    ensures q == a && r == b
  {
    if q < a {
      MulMonotone(q + 1, a, m);
    } else if a < q {
      MulMonotone(a + 1, q, m);
    }
  }

  lemma {:induction false} DivMod(a: nat, b: nat, m: nat)
    requires b < m
    ensures (a * m + b) / m == a && (a * m + b) % m == b
  {
    Unique((a * m + b) / m, (a * m + b) % m, a, b, m);
  }

  lemma Recompose(x: nat, m: nat)
    requires m > 0
    ensures x / m * m + x % m == x && x % m < m
  {
  }

  lemma DivMonotone(x: nat, y: nat, m: nat)
    requires m > 0 && x <= y
    ensures x / m <= y / m
  {
    if x / m > y / m {
      MulMonotone(y / m + 1, x / m, m);
    }
  }

  /** Row number at, of m rows of w bytes each, ends inside. */
  lemma RowFits(at: nat, m: nat, w: nat)
    requires at < m
    ensures at * w + w <= m * w && at * w + w == (at + 1) * w
  {
    MulMonotone(at + 1, m, w);
    MulMonotone(at, at, w);
  }
}
