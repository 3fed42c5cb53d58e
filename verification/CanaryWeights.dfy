/** Upstream weights for a canary percentage. */
module CanaryWeights {
  import opened Arithmetic

  function Gcd(a: nat, b: nat): nat
    decreases b
  {
    if b == 0 then a else Gcd(b, a % b)
  }

  datatype Weights = Weights(stable: int, canary: int)

  function CalculateCanaryWeights(canaryPercent: int): Weights {
    if canaryPercent <= 0 then Weights(1, 0)
    else if canaryPercent >= 100 then Weights(0, 1)
    else
      var stablePercent := 100 - canaryPercent;
      var divisor := Gcd(stablePercent, canaryPercent);
      GcdIsPositive(stablePercent, canaryPercent);
      Weights(stablePercent / divisor, canaryPercent / divisor)
  }

  ghost predicate Divides(d: nat, n: nat) {
    exists q: nat :: n == d * q
  }

  lemma {:induction false} GcdIsPositive(a: nat, b: nat)
    requires a > 0 || b > 0
    ensures Gcd(a, b) > 0
    decreases b
  {
    if b != 0 {
      GcdIsPositive(b, a % b);
    }
  }

  lemma DividesSum(d: nat, m: nat, n: nat, k: nat)
    requires Divides(d, m) && Divides(d, n)
    ensures Divides(d, m * k + n)
  {
    var p: nat :| m == d * p;
    var q: nat :| n == d * q;
    SumOfMultiples(d, p, q, k);
  }

  lemma SumOfMultiples(d: nat, p: nat, q: nat, k: nat)
    ensures (d * p) * k + d * q == d * (p * k + q)
  {
    assert (d * p) * k == d * (p * k);
  }

  lemma {:induction false} GcdDivides(a: nat, b: nat)
    ensures Divides(Gcd(a, b), a) && Divides(Gcd(a, b), b)
    decreases b
  {
    if b == 0 {
      assert a == a * 1 && b == a * 0;
    } else {
      GcdDivides(b, a % b);
      DividesSum(Gcd(a, b), b, a % b, a / b);
      assert b * (a / b) + a % b == a;
    }
  }

  lemma DividesRemainder(d: nat, a: nat, b: nat)
    requires b > 0 && Divides(d, a) && Divides(d, b)
    ensures Divides(d, a % b)
  {
    var p: nat :| a == d * p;
    var q: nat :| b == d * q;
    var k := a / b;
    assert a % b == d * p - (d * q) * k == d * (p - q * k) by {
      assert (d * q) * k == d * (q * k);
    }
    assert d != 0;
    FactorIsNatural(d, p - q * k);
  }

  lemma FactorIsNatural(d: nat, x: int)
    requires d > 0 && d * x >= 0
    ensures x >= 0
  {
  }

  /** Every common divisor divides it. */
  lemma {:induction false} GcdIsGreatest(a: nat, b: nat, d: nat)
    requires Divides(d, a) && Divides(d, b)
    ensures Divides(d, Gcd(a, b))
    decreases b
  {
    if b != 0 {
      DividesRemainder(d, a, b);
      GcdIsGreatest(b, a % b, d);
    }
  }

  /** Dividing both numbers by their gcd keeps their ratio and leaves no common divisor but 1. */
  lemma ReducedRatio(a: nat, b: nat)
    requires a > 0 && b > 0
    ensures Gcd(a, b) > 0
    ensures var g := Gcd(a, b);
      && a / g > 0 && b / g > 0 && a == g * (a / g) && b == g * (b / g)
      && (forall d: nat :: Divides(d, a / g) && Divides(d, b / g) ==> d == 1)
  {
    GcdIsPositive(a, b);
    GcdDivides(a, b);
    var g := Gcd(a, b);
    ExactQuotient(a, g);
    ExactQuotient(b, g);
    forall d: nat | Divides(d, a / g) && Divides(d, b / g) ensures d == 1 {
      ScaledDivisor(d, g, a / g);
      ScaledDivisor(d, g, b / g);
      GcdIsGreatest(a, b, g * d);
      OnlyOne(g, d);
      assert d != 0 by {
        var q: nat :| a / g == d * q;
      }
    }
  }

  lemma ExactQuotient(n: nat, g: nat)
    requires g > 0 && n > 0 && Divides(g, n)
    ensures n == g * (n / g) && n / g > 0
  {
    var q: nat :| n == g * q;
    QuotientIs(n, q, g);
  }

  lemma ScaledDivisor(d: nat, g: nat, n: nat)
    requires Divides(d, n)
    ensures Divides(g * d, g * n)
  {
    var q: nat :| n == d * q;
    assert g * n == (g * d) * q;
  }

  lemma OnlyOne(g: nat, d: nat)
    requires g > 0 && Divides(g * d, g)
    ensures d <= 1
  {
    var q: nat :| g == (g * d) * q;
    assert g * (d * q) == g * 1;
    FactorsOfOne(d, q, g);
  }

  lemma FactorsOfOne(d: nat, q: nat, g: nat)
    requires g > 0 && g * (d * q) == g * 1
    ensures d <= 1
  {
    assert d * q == 1;
  }

  /** A percentage strictly between 0 and 100 gets positive coprime weights in the exact ratio. */
  lemma WeightsAreExact(percent: int)
    requires 0 < percent < 100
    ensures var w := CalculateCanaryWeights(percent);
      && w.stable > 0 && w.canary > 0
      && w.stable * percent == w.canary * (100 - percent)
      && (forall d: nat :: Divides(d, w.stable) && Divides(d, w.canary) ==> d == 1)
  {
    var s := 100 - percent;
    ReducedRatio(s, percent);
    var g := Gcd(s, percent);
    var w := CalculateCanaryWeights(percent);
    SameRatio(s, percent, g, w.stable, w.canary);
  }

  lemma SameRatio(s: int, c: int, g: int, sw: int, cw: int)
    requires s == g * sw && c == g * cw
    ensures sw * c == cw * s
  {
    assert sw * c == sw * (g * cw) == (g * sw) * cw == s * cw;
  }
}
