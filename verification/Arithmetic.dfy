/** Division facts the solver needs spelled out. */
module Arithmetic {

  lemma MultiplesApart(p: int, q: int, step: int)
    requires step >= 1 && q * step <= p * step < (q + 1) * step
    ensures p == q
  {
  }

  lemma QuotientIs(x: int, k: int, step: int)
    requires step >= 1 && k * step <= x < k * step + step
    ensures x / step == k
  {
    var q := x / step;
    assert q * step <= x < q * step + step;
    OneMultipleBelow(x, k, q, step);
  }

  lemma OneMultipleBelow(x: int, p: int, q: int, step: int)
    requires step >= 1 && p * step <= x < p * step + step && q * step <= x < q * step + step
    ensures p == q
  {
    assert (q + 1) * step == q * step + step && (p + 1) * step == p * step + step;
    var d := p - q;
    assert p * step - q * step == d * step;
    assert -step < d * step < step;
    assert d == 0 by {
      MultiplesApart(if d >= 0 then d else -d, 0, step);
    }
  }

  lemma ModOfMultiple(k: int, step: int)
    requires step >= 1
    ensures (k * step) % step == 0
  {
    var x := k * step;
    QuotientIs(x, k, step);
    assert x / step * step + x % step == x;
  }

  lemma ModExact(x: int, step: int)
    requires step >= 1 && x % step == 0
    ensures x == x / step * step && (x + step) % step == 0
  {
    assert x + step == (x / step + 1) * step;
    ModOfMultiple(x / step + 1, step);
  }
}
