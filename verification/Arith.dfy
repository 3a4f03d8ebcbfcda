/** Division facts the solver does not find on its own. */
module Arith {
  lemma MulStep(a: int, b: int, d: int)
    requires a < b && 0 <= d
    ensures a * d + d <= b * d
  {
    Product(b - a - 1, d);
    assert (b - a - 1) * d == b * d - a * d - d;
  }

  lemma {:induction false} Product(x: nat, d: nat)
    ensures x * d >= 0
  {
    if x > 0 {
      Product(x - 1, d);
      assert x * d == (x - 1) * d + d;
    }
  }

  lemma DivModUnique(x: int, d: int, q: int, r: int)
    requires 0 < d && x == q * d + r && 0 <= r < d
    ensures x / d == q && x % d == r
  {
    if x / d < q {
      MulStep(x / d, q, d);
    } else if q < x / d {
      MulStep(q, x / d, d);
    }
  }

  /** Within a window of `d` consecutive numbers, a residue determines the number. */
  lemma ModInjective(a: int, b: int, d: int)
    requires 0 < d && a % d == b % d && -d < a - b < d
    ensures a == b
  {
    if a / d < b / d {
      MulStep(a / d, b / d, d);
    } else if b / d < a / d {
      MulStep(b / d, a / d, d);
    }
  }

  lemma ModShift(a: int, d: int, k: int)
    requires 0 < d
    ensures (a + k * d) % d == a % d && (a + k * d) / d == a / d + k
  {
    assert (a / d + k) * d == a / d * d + k * d;
    DivModUnique(a + k * d, d, a / d + k, a % d);
  }

  lemma DivMonotone(a: int, b: int, d: int)
    requires 0 < d && a <= b
    ensures a / d <= b / d
  {
    if b / d < a / d {
      MulStep(b / d, a / d, d);
    }
  }

  lemma TimesGrows(x: nat, d: nat)
    requires 0 < d
    ensures x <= x * d
  {
    assert x * (d - 1) >= 0;
  }

  lemma QuotientBound(x: nat, d: nat)
    requires 0 < d
    ensures 0 <= x / d <= x
  {
    TimesGrows(x, d);
    DivModUnique(0, d, 0, 0);
    DivModUnique(x * d, d, x, 0);
    DivMonotone(0, x, d);
    DivMonotone(x, x * d, d);
  }
}
