/** Leverage factors: fractions that are reduced and at least one. */
module ChainParameters {
  import opened Decimals

  // ---------- Reduced fractions ----------

  /** `num::integer::gcd` */
  function Gcd(a: nat, b: nat): nat
    decreases b
  {
    if b == 0 then a else Gcd(b, a % b)
  }

  /** No common factor but one. */
  ghost predicate Coprime(a: nat, b: nat) {
    forall c: nat, x: nat, y: nat :: a == c * x && b == c * y ==> c == 1
  }

  lemma {:induction false} Bezout(a: nat, b: nat) returns (u: int, v: int)
    ensures u * a + v * b == Gcd(a, b)
    decreases b
  {
    if b == 0 {
      u, v := 1, 0;
    } else {
      var q := a / b;
      var u', v' := Bezout(b, a % b);
      u, v := v', u' - v' * q;
      assert a % b == a - q * b;
      calc {
        u' * b + v' * (a % b);
        u' * b + v' * (a - q * b);
        u' * b + v' * a - v' * q * b;
        u * a + v * b;
      }
    }
  }

  lemma Recombine(a: nat, b: nat, q: nat, r: nat, g: nat, x: nat, y: nat)
    requires a == q * b + r && b == g * x && r == g * y
    ensures a == g * (q * x + y)
  {
    assert q * (g * x) == g * (q * x);
  }

  lemma {:induction false} GcdDivides(a: nat, b: nat) returns (x: nat, y: nat)
    ensures a == Gcd(a, b) * x && b == Gcd(a, b) * y
    decreases b
  {
    if b == 0 {
      x, y := 1, 0;
    } else {
      var q, r := a / b, a % b;
      var x', y' := GcdDivides(b, r);
      Recombine(a, b, q, r, Gcd(b, r), x', y');
      return q * x' + y', x';
    }
  }

  lemma UnitFactor(c: nat, k: int)
    requires c * k == 1
    ensures c == 1
  {
    if c > 1 && k > 0 {
      Enlarges(c, k);
    }
  }

  lemma CommonFactor(u: int, v: int, c: nat, x: nat, y: nat)
    requires u * (c * x) + v * (c * y) == 1
    ensures c == 1
  {
    assert c * (u * x + v * y) == u * (c * x) + v * (c * y);
    UnitFactor(c, u * x + v * y);
  }

  lemma {:induction false} GcdOneIsCoprime(a: nat, b: nat)
    requires a > 0 || b > 0
    ensures Gcd(a, b) == 1 <==> Coprime(a, b)
  {
    if Gcd(a, b) == 1 {
      var u, v := Bezout(a, b);
      forall c: nat, x: nat, y: nat | a == c * x && b == c * y ensures c == 1 {
        CommonFactor(u, v, c, x, y);
      }
    } else {
      var x, y := GcdDivides(a, b);
      assert a == Gcd(a, b) * x && b == Gcd(a, b) * y;
    }
  }

  /** A leverage factor is accepted exactly if it is a reduced fraction of value at least one. */
  predicate AcceptsLeverage(numerator: nat, denominator: nat) {
    numerator >= denominator && denominator != 0 && Gcd(numerator, denominator) == 1
  }

  lemma LeverageIsReduced(n: nat, d: nat)
    ensures AcceptsLeverage(n, d) <==> 0 < d <= n && Coprime(n, d)
  {
    if d > 0 {
      GcdOneIsCoprime(n, d);
    }
  }

  /** `a` divides `b` when it divides `n * b` for an `n` coprime to it. */
  lemma EuclidsLemma(a: nat, b: nat, n: nat, k: int) returns (q: int)
    requires Gcd(n, a) == 1 && n * b == a * k
    ensures b == a * q
  {
    var u, v := Bezout(n, a);
    q := u * k + v * b;
    Expand(u, n, v, a, b);
    Collect(u, a, k, v, b);
  }

  lemma Expand(u: int, n: int, v: int, a: int, b: int)
    ensures (u * n + v * a) * b == u * (n * b) + v * (a * b)
  {
  }

  lemma Collect(u: int, a: int, k: int, v: int, b: int)
    ensures u * (a * k) + v * (a * b) == a * (u * k + v * b)
  {
  }

  /** Two accepted factors of the same value are the same. */
  lemma LeverageIsUnique(n1: nat, d1: nat, n2: nat, d2: nat)
    requires AcceptsLeverage(n1, d1) && AcceptsLeverage(n2, d2)
    requires n1 * d2 == n2 * d1
    ensures n1 == n2 && d1 == d2
  {
    assert n1 * d2 == d1 * n2 && n2 * d1 == d2 * n1;
    var q1 := EuclidsLemma(d1, d2, n1, n2);
    var q2 := EuclidsLemma(d2, d1, n2, n1);
    MutualFactors(d1, d2, q1, q2);
    Cancel(n1, n2, d1);
  }

  lemma MutualFactors(a: nat, b: nat, p: int, q: int)
    requires a > 0 && b > 0 && b == a * p && a == b * q
    ensures a == b
  {
    assert p > 0 && q > 0;
    Enlarges(a, p);
    Enlarges(b, q);
  }
}
