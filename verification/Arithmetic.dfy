/** Products and quotients of naturals, a step at a time. */
module Arithmetic {

  lemma {:induction false} MulStep(a: nat, b: nat, d: nat)
    requires a < b
    ensures a * d + d <= b * d
  {
    if a + 1 == b {
      assert (a + 1) * d == a * d + d;
    } else {
      MulStep(a, b - 1, d);
      assert b * d == (b - 1) * d + d;
    }
  }

  lemma Quotient(x: nat, d: nat)
    requires d > 0
    ensures x == (x / d) * d + x % d && 0 <= x / d && 0 <= x % d < d
  {
  }

  lemma UniqueQuotient(d: nat, q: nat, r: nat, s: nat, l: nat)
    requires q * d + r == s * d + l && r < d && l < d
    ensures q == s && r == l
  {
    if q < s {
      MulStep(q, s, d);
    } else if s < q {
      MulStep(s, q, d);
    }
  }

  lemma DivModOf(x: nat, s: nat, l: nat, d: nat)
    requires l < d && x == s * d + l
    ensures x / d == s && x % d == l
  {
    Quotient(x, d);
    UniqueQuotient(d, x / d, x % d, s, l);
  }
}
