/** Products and floor division, one small step at a time. */
module Arithmetic {

  lemma MulMonotone(a: nat, b: nat, d: nat)
    requires a <= b
    ensures a * d <= b * d
  {
  }

  lemma FloorBracket(n: nat, d: nat)
    requires d > 0
    ensures n / d * d <= n < n / d * d + d
  {
  }

  lemma FloorShrinks(n: nat, d: nat)
    requires d > 0
    ensures n / d <= n
    ensures d > 1 && n > 0 ==> n / d < n
  {
    FloorBracket(n, d);
    MulMonotone(1, d, n / d);
    if d > 1 {
      MulMonotone(2, d, n / d);
    }
  }

  lemma Distribute(a: nat, b: nat, f: nat)
    ensures (a + b) * f == a * f + b * f
    ensures f * (a + b) == f * a + f * b
  {
  }

  lemma CancelFactor(a: nat, b: nat, f: nat)
    requires f > 0 && a * f <= b * f
    ensures a <= b
  {
  }

  lemma CancelStrict(a: nat, b: nat, f: nat)
    requires a * f < b * f
    ensures a < b
  {
  }
}
