/** The few arithmetic facts that several components share. */
module Arithmetic {
  function Least(a: int, b: int): int { if a < b then a else b }

  lemma MulMono(a: int, p: int, q: int)
    requires 0 <= a && p <= q
    ensures a * p <= a * q
  {
  }

  lemma QuotientIs(x: int, d: int, q: int)
    requires d > 0 && q * d <= x < q * d + d
    ensures x / d == q
  {
    var s := x / d;
    assert s * d <= x < s * d + d;
    if s > q { MulMono(d, q + 1, s); }
    if s < q { MulMono(d, s + 1, q); }
  }

  /** k * unit, by addition. */
  function Times(k: nat, unit: nat): (t: nat) { if k == 0 then 0 else Times(k - 1, unit) + unit }

  lemma TimesStep(k: nat, unit: nat)
    requires k > 0
    ensures Times(k, unit) == Times(k - 1, unit) + unit
  {
  }

  lemma {:induction false} TimesMeans(k: nat, unit: nat)
    ensures Times(k, unit) == k * unit
  {
    if k > 0 {
      TimesMeans(k - 1, unit);
      assert k * unit == (k - 1) * unit + unit;
    }
  }

  lemma {:induction false} TimesSum(a: nat, b: nat, unit: nat)
    ensures Times(a + b, unit) == Times(a, unit) + Times(b, unit)
  {
    if b > 0 { TimesSum(a, b - 1, unit); }
  }

  lemma {:induction false} TimesGrows(a: nat, b: nat, unit: nat)
    requires a <= b
    ensures Times(a, unit) <= Times(b, unit)
  {
    if a < b { TimesGrows(a, b - 1, unit); }
  }
}
